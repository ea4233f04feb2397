/** The Next.js project container: the stored project options and their
    partial update, the merge of the App Router and Pages Router routes into
    the entrypoints, and the ordered list of all endpoints. Endpoints are
    identified by number; what they build is not modelled. */
module Project {
  import opened Wrappers
  import FsPath
  import NextConfig

  // ---------------------------------------------------------------------------
  // Options

  datatype WatchOptions = WatchOptions(enable: bool, pollIntervalMs: Option<nat>)

  datatype DraftModeOptions = DraftModeOptions(previewModeId: string, previewModeEncryptionKey: string, previewModeSigningKey: string)

  datatype DefineEnv = DefineEnv(client: seq<(string, Option<string>)>, edge: seq<(string, Option<string>)>, nodejs: seq<(string, Option<string>)>)

  /** `ProjectOptions`. */
  datatype ProjectOptions = ProjectOptions(
    rootPath: string,
    projectPath: string,
    nextConfig: string,
    env: seq<(string, string)>,
    defineEnv: DefineEnv,
    watch: WatchOptions,
    dev: bool,
    encryptionKey: string,
    buildId: string,
    previewProps: DraftModeOptions,
    browserslistQuery: string,
    noMangling: bool,
    currentNodeJsVersion: string)

  /** `PartialProjectOptions`: the options an update may change, each one
      present or absent. */
  datatype PartialProjectOptions = PartialProjectOptions(
    rootPath: Option<string>,
    projectPath: Option<string>,
    nextConfig: Option<string>,
    env: Option<seq<(string, string)>>,
    defineEnv: Option<DefineEnv>,
    watch: Option<WatchOptions>,
    dev: Option<bool>,
    encryptionKey: Option<string>,
    buildId: Option<string>,
    previewProps: Option<DraftModeOptions>)

  const NoChanges := PartialProjectOptions(None, None, None, None, None, None, None, None, None, None)

  /** The options after an update: every option the update carries replaces
      the stored one, every other option, and the three options an update
      cannot carry, keep their stored value. */
  function Overlay(options: ProjectOptions, partial: PartialProjectOptions): (r: ProjectOptions)
    ensures partial.rootPath.Some? ==> r.rootPath == partial.rootPath.value
    ensures partial.rootPath.None? ==> r.rootPath == options.rootPath
    ensures partial.projectPath.Some? ==> r.projectPath == partial.projectPath.value
    ensures partial.projectPath.None? ==> r.projectPath == options.projectPath
    ensures partial.nextConfig.Some? ==> r.nextConfig == partial.nextConfig.value
    ensures partial.nextConfig.None? ==> r.nextConfig == options.nextConfig
    ensures partial.env.Some? ==> r.env == partial.env.value
    ensures partial.env.None? ==> r.env == options.env
    ensures partial.defineEnv.Some? ==> r.defineEnv == partial.defineEnv.value
    ensures partial.defineEnv.None? ==> r.defineEnv == options.defineEnv
    ensures partial.watch.Some? ==> r.watch == partial.watch.value
    ensures partial.watch.None? ==> r.watch == options.watch
    ensures partial.dev.Some? ==> r.dev == partial.dev.value
    ensures partial.dev.None? ==> r.dev == options.dev
    ensures partial.encryptionKey.Some? ==> r.encryptionKey == partial.encryptionKey.value
    ensures partial.encryptionKey.None? ==> r.encryptionKey == options.encryptionKey
    ensures partial.buildId.Some? ==> r.buildId == partial.buildId.value
    ensures partial.buildId.None? ==> r.buildId == options.buildId
    ensures partial.previewProps.Some? ==> r.previewProps == partial.previewProps.value
    ensures partial.previewProps.None? ==> r.previewProps == options.previewProps
    ensures r.browserslistQuery == options.browserslistQuery
    ensures r.noMangling == options.noMangling
    ensures r.currentNodeJsVersion == options.currentNodeJsVersion
  {
    options.(
      rootPath := partial.rootPath.GetOr(options.rootPath),
      projectPath := partial.projectPath.GetOr(options.projectPath),
      nextConfig := partial.nextConfig.GetOr(options.nextConfig),
      env := partial.env.GetOr(options.env),
      defineEnv := partial.defineEnv.GetOr(options.defineEnv),
      watch := partial.watch.GetOr(options.watch),
      dev := partial.dev.GetOr(options.dev),
      encryptionKey := partial.encryptionKey.GetOr(options.encryptionKey),
      buildId := partial.buildId.GetOr(options.buildId),
      previewProps := partial.previewProps.GetOr(options.previewProps))
  }

  function Later<T>(first: Option<T>, second: Option<T>): Option<T> {
    if second.Some? then second else first
  }

  /** Two updates in a row, as one: the second one's options win. */
  function Then(first: PartialProjectOptions, second: PartialProjectOptions): PartialProjectOptions {
    PartialProjectOptions(
      Later(first.rootPath, second.rootPath),
      Later(first.projectPath, second.projectPath),
      Later(first.nextConfig, second.nextConfig),
      Later(first.env, second.env),
      Later(first.defineEnv, second.defineEnv),
      Later(first.watch, second.watch),
      Later(first.dev, second.dev),
      Later(first.encryptionKey, second.encryptionKey),
      Later(first.buildId, second.buildId),
      Later(first.previewProps, second.previewProps))
  }

  /** An empty update changes nothing, an update applied twice is applied
      once, and two updates compose into one. */
  lemma OverlayLaws(options: ProjectOptions, first: PartialProjectOptions, second: PartialProjectOptions)
    ensures Overlay(options, NoChanges) == options
    ensures Overlay(Overlay(options, first), first) == Overlay(options, first)
    ensures Overlay(Overlay(options, first), second) == Overlay(options, Then(first, second))
  {
  }

  /** `if let Some(value) = update { current = value }`. */
  method Replaced<T>(current: T, update: Option<T>) returns (r: T)
    ensures update.Some? ==> r == update.value
    ensures update.None? ==> r == current
  {
    r := current;
    if update.Some? {
      r := update.value;
    }
  }

  /** `ProjectContainer`: the project options, absent until initialised. */
  class ProjectContainer {
    const name: string
    var optionsState: Option<ProjectOptions>

    constructor (name: string)
      ensures this.name == name && optionsState.None?
    {
      this.name := name;
      optionsState := None;
    }

    /** `initialize`: stores the options. */
    method Initialize(options: ProjectOptions)
      modifies this
      ensures optionsState == Some(options)
    {
      optionsState := Some(options);
    }

    /** `update`: copies each option the update carries over the stored
      options; an error before initialisation, with nothing changed. */
    method Update(partial: PartialProjectOptions) returns (r: Result<()>)
      modifies this
      ensures r.Err? <==> old(optionsState).None?
      ensures r.Err? ==> r.msg == "ProjectContainer need to be initialized with initialize()" && optionsState == old(optionsState)
      ensures r.Ok? ==> optionsState == Some(Overlay(old(optionsState).value, partial))
    {
      if optionsState.None? {
        return Err("ProjectContainer need to be initialized with initialize()");
      }
      var newOptions := optionsState.value;
      var rootPath := Replaced(newOptions.rootPath, partial.rootPath);
      newOptions := newOptions.(rootPath := rootPath);
      var projectPath := Replaced(newOptions.projectPath, partial.projectPath);
      newOptions := newOptions.(projectPath := projectPath);
      var nextConfig := Replaced(newOptions.nextConfig, partial.nextConfig);
      newOptions := newOptions.(nextConfig := nextConfig);
      var env := Replaced(newOptions.env, partial.env);
      newOptions := newOptions.(env := env);
      var defineEnv := Replaced(newOptions.defineEnv, partial.defineEnv);
      newOptions := newOptions.(defineEnv := defineEnv);
      var watch := Replaced(newOptions.watch, partial.watch);
      newOptions := newOptions.(watch := watch);
      var dev := Replaced(newOptions.dev, partial.dev);
      newOptions := newOptions.(dev := dev);
      var encryptionKey := Replaced(newOptions.encryptionKey, partial.encryptionKey);
      newOptions := newOptions.(encryptionKey := encryptionKey);
      var buildId := Replaced(newOptions.buildId, partial.buildId);
      newOptions := newOptions.(buildId := buildId);
      var previewProps := Replaced(newOptions.previewProps, partial.previewProps);
      newOptions := newOptions.(previewProps := previewProps);
      optionsState := Some(newOptions);
      return Ok(());
    }
  }

  /** `per_page_module_graph`: one module graph per page in development
      only. */
  function PerPageModuleGraph(mode: NextConfig.NextMode): (r: bool)
    ensures r <==> mode == NextConfig.Development
  {
    mode == NextConfig.Development
  }

  // ---------------------------------------------------------------------------
  // Routes

  type Endpoint = nat

  datatype AppPageRoute = AppPageRoute(originalName: string, htmlEndpoint: Endpoint, rscEndpoint: Endpoint)

  /** `Route`. */
  datatype Route =
    | Page(htmlEndpoint: Endpoint, dataEndpoint: Option<Endpoint>)
    | PageApi(endpoint: Endpoint)
    | AppPage(pageRoutes: seq<AppPageRoute>)
    | AppRoute(originalName: string, endpoint: Endpoint)
    | Conflict

  /** `FxIndexMap<RcStr, Route>`: the pathnames in insertion order, and the
      route of each. */
  datatype RouteMap = RouteMap(keys: seq<string>, entries: map<string, Route>)

  predicate DistinctKeys(keys: seq<string>) {
    forall i, j :: 0 <= i < j < |keys| ==> keys[i] != keys[j]
  }

  /** Every pathname is listed once, and exactly the listed ones have a
      route. */
  ghost predicate ValidMap(m: RouteMap) {
    DistinctKeys(m.keys) && forall k :: k in m.entries <==> k in m.keys
  }

  /** `routes.entry(pathname)` for a Pages route: an occupied entry becomes
      `Conflict` in place, a vacant one is appended. */
  function InsertPagesRoute(m: RouteMap, name: string, route: Route): RouteMap {
    if name in m.entries then RouteMap(m.keys, m.entries[name := Conflict])
    else RouteMap(m.keys + [name], m.entries[name := route])
  }

  /** The routes after the Pages routes listed in `keys` are merged into
      `app`, one at a time in their order. */
  function MergePages(app: RouteMap, keys: seq<string>, pages: map<string, Route>): RouteMap
    requires forall k :: k in keys ==> k in pages
    decreases |keys|
  {
    if keys == [] then app
    else
      var last := keys[|keys| - 1];
      InsertPagesRoute(MergePages(app, keys[..|keys| - 1], pages), last, pages[last])
  }

  /** The pathnames of `names` that are not in `existing`, in order. */
  function NewNames(names: seq<string>, existing: set<string>): (r: seq<string>)
    ensures forall n :: n in r <==> n in names && n !in existing
  {
    if names == [] then []
    else NewNames(names[..|names| - 1], existing) + (if names[|names| - 1] in existing then [] else [names[|names| - 1]])
  }

  /** The pathnames of `names` that are also in `existing`, in order. */
  function SharedNames(names: seq<string>, existing: set<string>): (r: seq<string>)
    ensures forall n :: n in r <==> n in names && n in existing
  {
    if names == [] then []
    else SharedNames(names[..|names| - 1], existing) + (if names[|names| - 1] in existing then [names[|names| - 1]] else [])
  }

  /** A pathname has a route after the merge exactly when one of the two
      routers has it. */
  lemma {:induction false} MergePagesDomain(app: RouteMap, keys: seq<string>, pages: map<string, Route>)
    requires forall k :: k in keys ==> k in pages
    ensures forall n {:trigger n in MergePages(app, keys, pages).entries} ::
      n in MergePages(app, keys, pages).entries <==> n in app.entries || n in keys
    decreases |keys|
  {
    if keys != [] {
      var k := |keys| - 1;
      MergePagesDomain(app, keys[..k], pages);
      assert keys == keys[..k] + [keys[k]];
    }
  }

  /** App routes come first in their order, followed by the Pages routes on
      new pathnames in theirs; a pathname both routers have is a `Conflict`,
      any other keeps its route. */
  lemma {:induction false} MergePagesMeaning(app: RouteMap, keys: seq<string>, pages: map<string, Route>)
    requires forall k :: k in keys ==> k in pages
    requires DistinctKeys(keys)
    ensures MergePages(app, keys, pages).keys == app.keys + NewNames(keys, app.entries.Keys)
    ensures forall n {:trigger n in MergePages(app, keys, pages).entries} ::
      n in MergePages(app, keys, pages).entries <==> n in app.entries || n in keys
    ensures forall n {:trigger MergePages(app, keys, pages).entries[n]} :: n in MergePages(app, keys, pages).entries ==>
      MergePages(app, keys, pages).entries[n] ==
        if n in app.entries && n in keys then Conflict
        else if n in app.entries then app.entries[n]
        else pages[n]
    decreases |keys|
  {
    if keys != [] {
      var k := |keys| - 1;
      var init, last := keys[..k], keys[k];
      assert keys == init + [last];
      assert last !in init;
      MergePagesAppend(app, init, last, pages);
      MergePagesMeaning(app, init, pages);
    }
  }

  /** Merging two valid maps gives a valid map. */
  lemma {:induction false} MergePagesValid(app: RouteMap, keys: seq<string>, pages: map<string, Route>)
    requires forall k :: k in keys ==> k in pages
    requires ValidMap(app) && DistinctKeys(keys)
    ensures ValidMap(MergePages(app, keys, pages))
  {
    var merged := MergePages(app, keys, pages);
    MergePagesMeaning(app, keys, pages);
    MergePagesDomain(app, keys, pages);
    var added := NewNames(keys, app.entries.Keys);
    NewNamesDistinct(keys, app.entries.Keys);
    forall i, j | 0 <= i < j < |merged.keys| ensures merged.keys[i] != merged.keys[j] {
      if i < |app.keys| <= j {
        assert merged.keys[i] in app.entries;
        assert merged.keys[j] == added[j - |app.keys|];
      } else if |app.keys| <= i {
        assert merged.keys[i] == added[i - |app.keys|];
        assert merged.keys[j] == added[j - |app.keys|];
      }
    }
  }

  lemma {:induction false} NewNamesDistinct(names: seq<string>, existing: set<string>)
    requires DistinctKeys(names)
    ensures DistinctKeys(NewNames(names, existing))
    decreases |names|
  {
    if names != [] {
      var k := |names| - 1;
      assert DistinctKeys(names[..k]);
      NewNamesDistinct(names[..k], existing);
      assert names[k] !in names[..k];
      assert names[k] !in NewNames(names[..k], existing);
    }
  }

  /** `ConflictIssue`: the App Router and the Pages Router both match a
      path. */
  datatype ConflictIssue = ConflictIssue(pathname: string)

  function ConflictTitle(issue: ConflictIssue): string {
    "App Router and Pages Router both match path: " + issue.pathname
  }

  /** Distinct pathnames give distinct titles: the title names its path. */
  lemma ConflictTitleNamesPath(a: string, b: string)
    ensures ConflictTitle(ConflictIssue(a)) == ConflictTitle(ConflictIssue(b)) <==> a == b
  {
    var prefix := "App Router and Pages Router both match path: ";
    assert (prefix + a)[|prefix|..] == a;
    assert (prefix + b)[|prefix|..] == b;
  }

  function Issues(pathnames: seq<string>): (r: seq<ConflictIssue>)
    ensures |r| == |pathnames| && forall i :: 0 <= i < |r| ==> r[i] == ConflictIssue(pathnames[i])
    ensures forall n :: ConflictIssue(n) in r <==> n in pathnames
  {
    if pathnames == [] then [] else [ConflictIssue(pathnames[0])] + Issues(pathnames[1..])
  }

  /** The route merge of `entrypoints`: the App routes, then each Pages
      route in turn, an existing pathname becoming a conflict with an
      issue. */
  method MergeRoutes(app: RouteMap, pages: RouteMap) returns (routes: RouteMap, issues: seq<ConflictIssue>)
    requires ValidMap(pages)
    ensures routes == MergePages(app, pages.keys, pages.entries)
    ensures issues == Issues(SharedNames(pages.keys, app.entries.Keys))
  {
    routes := app;
    var conflicts: seq<string> := [];
    for i := 0 to |pages.keys|
      invariant routes == MergePages(app, pages.keys[..i], pages.entries)
      invariant conflicts == SharedNames(pages.keys[..i], app.entries.Keys)
    {
      var pathname := pages.keys[i];
      var pageRoute := pages.entries[pathname];
      assert pages.keys[..i + 1] == pages.keys[..i] + [pathname];
      MergePagesAppend(app, pages.keys[..i], pathname, pages.entries);
      SharedNamesAppend(pages.keys[..i], pathname, app.entries.Keys);
      MergePagesDomain(app, pages.keys[..i], pages.entries);
      assert pathname !in pages.keys[..i];
      if pathname in routes.entries {
        conflicts := conflicts + [pathname];
        routes := RouteMap(routes.keys, routes.entries[pathname := Conflict]);
      } else {
        routes := RouteMap(routes.keys + [pathname], routes.entries[pathname := pageRoute]);
      }
    }
    assert pages.keys[..|pages.keys|] == pages.keys;
    issues := Issues(conflicts);
  }

  lemma MergePagesAppend(app: RouteMap, keys: seq<string>, name: string, pages: map<string, Route>)
    requires forall k :: k in keys + [name] ==> k in pages
    ensures MergePages(app, keys + [name], pages) == InsertPagesRoute(MergePages(app, keys, pages), name, pages[name])
  {
    assert (keys + [name])[..|keys|] == keys;
  }

  lemma SharedNamesAppend(names: seq<string>, name: string, existing: set<string>)
    ensures SharedNames(names + [name], existing) == SharedNames(names, existing) + (if name in existing then [name] else [])
  {
    assert (names + [name])[..|names|] == names;
  }

  /** The issues name exactly the pathnames both routers have, which are
      the ones whose merged route is a `Conflict` of two real routes. */
  lemma ConflictsAreShared(app: RouteMap, pages: RouteMap, n: string)
    requires ValidMap(pages)
    ensures ConflictIssue(n) in Issues(SharedNames(pages.keys, app.entries.Keys)) <==>
      n in app.entries && n in pages.entries
  {
  }

  // ---------------------------------------------------------------------------
  // Entrypoints and endpoints

  datatype Middleware = Middleware(endpoint: Endpoint, isProxy: bool)
  datatype Instrumentation = Instrumentation(nodeJs: Endpoint, edge: Endpoint)

  /** `Entrypoints`. */
  datatype Entrypoints = Entrypoints(
    routes: RouteMap,
    middleware: Option<Middleware>,
    instrumentation: Option<Instrumentation>,
    pagesDocumentEndpoint: Endpoint,
    pagesAppEndpoint: Endpoint,
    pagesErrorEndpoint: Endpoint)

  /** The middleware of the entrypoints, from the middleware file found (if
      any): a proxy when the file's stem is "proxy". */
  function MiddlewareFor(middlewareFile: Option<string>, endpoint: Endpoint): (r: Option<Middleware>)
    ensures r.Some? <==> middlewareFile.Some?
    ensures r.Some? ==> r.value.endpoint == endpoint && (r.value.isProxy <==> FsPath.FileStem(middlewareFile.value) == Some("proxy"))
  {
    match middlewareFile
    case None => None
    case Some(path) => Some(Middleware(endpoint, FsPath.FileStem(path) == Some("proxy")))
  }

  function OptionSeq(o: Option<Endpoint>): seq<Endpoint> {
    if o.Some? then [o.value] else []
  }

  /** The endpoints that precede the routes: the middleware's, then the
      instrumentation's Node.js and edge ones. */
  function LeadingEndpoints(e: Entrypoints): seq<Endpoint> {
    (if e.middleware.Some? then [e.middleware.value.endpoint] else [])
    + (if e.instrumentation.Some? then [e.instrumentation.value.nodeJs, e.instrumentation.value.edge] else [])
  }

  /** The error, app and document endpoints of the Pages Router. */
  function PagesEntries(e: Entrypoints): seq<Endpoint> {
    [e.pagesErrorEndpoint, e.pagesAppEndpoint, e.pagesDocumentEndpoint]
  }

  function HtmlEndpoints(pageRoutes: seq<AppPageRoute>): (r: seq<Endpoint>)
    ensures |r| == |pageRoutes| && forall i :: 0 <= i < |r| ==> r[i] == pageRoutes[i].htmlEndpoint
  {
    if pageRoutes == [] then [] else [pageRoutes[0].htmlEndpoint] + HtmlEndpoints(pageRoutes[1..])
  }

  predicate IsPagesRoute(route: Route) {
    route.Page? || route.PageApi?
  }

  /** The endpoints a route stands for: a Pages route's own ones (none when
      only the app directory is wanted), the HTML endpoints of an App page,
      an App route's endpoint, and nothing for a conflict. */
  function OwnEndpoints(route: Route, appDirOnly: bool): seq<Endpoint> {
    match route
    case Page(html, data) => if appDirOnly then [] else [html] + OptionSeq(data)
    case PageApi(endpoint) => if appDirOnly then [] else [endpoint]
    case AppPage(pageRoutes) => HtmlEndpoints(pageRoutes)
    case AppRoute(_, endpoint) => [endpoint]
    case Conflict => []
  }

  /** The endpoint a Pages route pushes first: the HTML one of a page, the
      one of an API route. */
  function MainEndpoint(route: Route): Endpoint
    requires IsPagesRoute(route)
  {
    if route.Page? then route.htmlEndpoint else route.endpoint
  }

  /** What the loop of `get_all_endpoints` pushes for one route, the Pages
      entries following the first Pages route's main endpoint. */
  function RouteStep(e: Entrypoints, route: Route, appDirOnly: bool, pagesEntriesAdded: bool): seq<Endpoint> {
    if IsPagesRoute(route) && !appDirOnly && !pagesEntriesAdded then
      [MainEndpoint(route)] + PagesEntries(e) + OwnEndpoints(route, appDirOnly)[1..]
    else OwnEndpoints(route, appDirOnly)
  }

  /** Some route of the list is a Pages route. */
  predicate AnyPagesRoute(routes: seq<Route>) {
    if routes == [] then false
    else AnyPagesRoute(routes[..|routes| - 1]) || IsPagesRoute(routes[|routes| - 1])
  }

  /** The endpoints the loop of `get_all_endpoints` pushes for the routes:
      the Pages entries are added once a Pages route has been met. */
  function RoutesEndpoints(e: Entrypoints, routes: seq<Route>, appDirOnly: bool): seq<Endpoint> {
    if routes == [] then []
    else
      var init := routes[..|routes| - 1];
      RoutesEndpoints(e, init, appDirOnly) + RouteStep(e, routes[|routes| - 1], appDirOnly, !appDirOnly && AnyPagesRoute(init))
  }

  /** Every listed pathname has a route. */
  predicate KeysMapped(m: RouteMap) {
    forall k :: k in m.keys ==> k in m.entries
  }

  /** The routes in the map's order. */
  function RouteValues(m: RouteMap): (r: seq<Route>)
    requires KeysMapped(m)
    ensures |r| == |m.keys| && forall i :: 0 <= i < |r| ==> r[i] == m.entries[m.keys[i]]
  {
    seq(|m.keys|, i requires 0 <= i < |m.keys| => m.entries[m.keys[i]])
  }

  /** The endpoints of `get_all_endpoints`. */
  function AllEndpoints(e: Entrypoints, appDirOnly: bool): seq<Endpoint>
    requires KeysMapped(e.routes)
  {
    LeadingEndpoints(e) + RoutesEndpoints(e, RouteValues(e.routes), appDirOnly)
  }

  /** The body of the loop of `get_all_endpoints`, for one route. */
  method PushRoute(e: Entrypoints, endpoints: seq<Endpoint>, route: Route, appDirOnly: bool, isPagesEntriesAdded: bool)
    returns (pushed: seq<Endpoint>, added: bool)
    ensures pushed == endpoints + RouteStep(e, route, appDirOnly, isPagesEntriesAdded)
    ensures added == (isPagesEntriesAdded || (!appDirOnly && IsPagesRoute(route)))
  {
    pushed, added := endpoints, isPagesEntriesAdded;
    match route {
      case Page(htmlEndpoint, dataEndpoint) =>
        if !appDirOnly {
          pushed := pushed + [htmlEndpoint];
          if !added {
            pushed := pushed + [e.pagesErrorEndpoint];
            pushed := pushed + [e.pagesAppEndpoint];
            pushed := pushed + [e.pagesDocumentEndpoint];
            added := true;
          }
          if dataEndpoint.Some? {
            pushed := pushed + [dataEndpoint.value];
          }
        }
      case PageApi(endpoint) =>
        if !appDirOnly {
          pushed := pushed + [endpoint];
          if !added {
            pushed := pushed + [e.pagesErrorEndpoint];
            pushed := pushed + [e.pagesAppEndpoint];
            pushed := pushed + [e.pagesDocumentEndpoint];
            added := true;
          }
        }
      case AppPage(pageRoutes) =>
        for j := 0 to |pageRoutes|
          invariant pushed == endpoints + HtmlEndpoints(pageRoutes[..j])
        {
          assert pageRoutes[..j + 1] == pageRoutes[..j] + [pageRoutes[j]];
          HtmlEndpointsAppend(pageRoutes[..j], pageRoutes[j]);
          pushed := pushed + [pageRoutes[j].htmlEndpoint];
        }
        assert pageRoutes[..|pageRoutes|] == pageRoutes;
      case AppRoute(_, endpoint) =>
        pushed := pushed + [endpoint];
      case Conflict =>
    }
  }

  /** `get_all_endpoints`. */
  method GetAllEndpoints(e: Entrypoints, appDirOnly: bool) returns (endpoints: seq<Endpoint>)
    requires KeysMapped(e.routes)
    ensures endpoints == AllEndpoints(e, appDirOnly)
  {
    endpoints := [];
    var isPagesEntriesAdded := false;
    if e.middleware.Some? {
      endpoints := endpoints + [e.middleware.value.endpoint];
    }
    if e.instrumentation.Some? {
      endpoints := endpoints + [e.instrumentation.value.nodeJs];
      endpoints := endpoints + [e.instrumentation.value.edge];
    }
    ghost var routes := RouteValues(e.routes);
    ghost var leading := LeadingEndpoints(e);
    assert endpoints == leading;
    for i := 0 to |e.routes.keys|
      invariant endpoints == leading + RoutesEndpoints(e, routes[..i], appDirOnly)
      invariant isPagesEntriesAdded == (!appDirOnly && AnyPagesRoute(routes[..i]))
    {
      var route := e.routes.entries[e.routes.keys[i]];
      assert routes[..i + 1] == routes[..i] + [route];
      RoutesEndpointsAppend(e, routes[..i], route, appDirOnly);
      ConcatAssoc(leading, RoutesEndpoints(e, routes[..i], appDirOnly), RouteStep(e, route, appDirOnly, isPagesEntriesAdded));
      endpoints, isPagesEntriesAdded := PushRoute(e, endpoints, route, appDirOnly, isPagesEntriesAdded);
    }
    assert routes[..|routes|] == routes;
  }

  lemma HtmlEndpointsAppend(pageRoutes: seq<AppPageRoute>, last: AppPageRoute)
    ensures HtmlEndpoints(pageRoutes + [last]) == HtmlEndpoints(pageRoutes) + [last.htmlEndpoint]
  {
  }

  /** The endpoints of the routes without the Pages entries. */
  function Flat(routes: seq<Route>, appDirOnly: bool): seq<Endpoint> {
    if routes == [] then [] else Flat(routes[..|routes| - 1], appDirOnly) + OwnEndpoints(routes[|routes| - 1], appDirOnly)
  }

  /** Without a Pages route, or when only the app directory is wanted, the
      Pages entries are never added. */
  lemma {:induction false} NoPagesEntries(e: Entrypoints, routes: seq<Route>, appDirOnly: bool)
    requires appDirOnly || !AnyPagesRoute(routes)
    ensures RoutesEndpoints(e, routes, appDirOnly) == Flat(routes, appDirOnly)
    decreases |routes|
  {
    if routes != [] {
      var init := routes[..|routes| - 1];
      assert !appDirOnly ==> !AnyPagesRoute(init);
      NoPagesEntries(e, init, appDirOnly);
    }
  }

  /** The Pages entries are added exactly once, right after the main
      endpoint of the first Pages route, every other route pushing its own
      endpoints. */
  lemma PagesEntriesOnce(e: Entrypoints, pre: seq<Route>, route: Route, post: seq<Route>)
    requires !AnyPagesRoute(pre) && IsPagesRoute(route)
    ensures RoutesEndpoints(e, pre + [route] + post, false) == Flat(pre, false) + RouteStep(e, route, false, false) + Flat(post, false)
  {
    NoPagesEntries(e, pre, false);
    RoutesEndpointsAppend(e, pre, route, false);
    assert (pre + [route])[..|pre|] == pre;
    AfterPagesEntries(e, pre + [route], post);
  }

  /** Once the Pages entries are added, every further route pushes its own
      endpoints only. */
  lemma {:induction false} AfterPagesEntries(e: Entrypoints, routes: seq<Route>, post: seq<Route>)
    requires AnyPagesRoute(routes)
    ensures RoutesEndpoints(e, routes + post, false) == RoutesEndpoints(e, routes, false) + Flat(post, false)
    decreases |post|
  {
    if post == [] {
      assert routes + post == routes;
    } else {
      var init, last := post[..|post| - 1], post[|post| - 1];
      SplitLast(post);
      AfterPagesEntries(e, routes, init);
      AfterPagesEntriesStep(e, routes, init, last);
    }
  }

  lemma AfterPagesEntriesStep(e: Entrypoints, routes: seq<Route>, init: seq<Route>, last: Route)
    requires AnyPagesRoute(routes)
    requires RoutesEndpoints(e, routes + init, false) == RoutesEndpoints(e, routes, false) + Flat(init, false)
    ensures RoutesEndpoints(e, routes + (init + [last]), false) == RoutesEndpoints(e, routes, false) + Flat(init + [last], false)
  {
    assert routes + (init + [last]) == (routes + init) + [last];
    AnyPagesRouteGrows(routes, init);
    RoutesEndpointsAppend(e, routes + init, last, false);
    FlatAppend(init, last, false);
    var a, c, d := RoutesEndpoints(e, routes, false), Flat(init, false), OwnEndpoints(last, false);
    assert RouteStep(e, last, false, true) == d;
    ConcatAssoc(a, c, d);
  }

  lemma {:induction false} AnyPagesRouteGrows(routes: seq<Route>, post: seq<Route>)
    requires AnyPagesRoute(routes)
    ensures AnyPagesRoute(routes + post)
    decreases |post|
  {
    if post == [] {
      assert routes + post == routes;
    } else {
      SplitLast(post);
      assert routes + post == (routes + post[..|post| - 1]) + [post[|post| - 1]];
      AnyPagesRouteGrows(routes, post[..|post| - 1]);
      assert (routes + post)[..|routes + post| - 1] == routes + post[..|post| - 1];
    }
  }

  lemma RoutesEndpointsAppend(e: Entrypoints, routes: seq<Route>, last: Route, appDirOnly: bool)
    ensures RoutesEndpoints(e, routes + [last], appDirOnly)
      == RoutesEndpoints(e, routes, appDirOnly) + RouteStep(e, last, appDirOnly, !appDirOnly && AnyPagesRoute(routes))
  {
    assert (routes + [last])[..|routes|] == routes;
  }

  lemma FlatAppend(routes: seq<Route>, last: Route, appDirOnly: bool)
    ensures Flat(routes + [last], appDirOnly) == Flat(routes, appDirOnly) + OwnEndpoints(last, appDirOnly)
  {
    assert (routes + [last])[..|routes|] == routes;
  }

  lemma SplitLast<T>(s: seq<T>)
    requires s != []
    ensures s == s[..|s| - 1] + [s[|s| - 1]]
  {
  }

  lemma ConcatAssoc<T>(a: seq<T>, b: seq<T>, c: seq<T>)
    ensures (a + b) + c == a + (b + c)
  {
  }
}
