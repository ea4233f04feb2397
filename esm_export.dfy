/** ECMAScript module exports: expanding `export * from ...` chains, the
    exports of a module as its importers see them, whether an imported
    name is missing, and following re-exports to the module that defines a
    name. Modules are identified by number; `ModuleGraph` maps each module
    to its exports, with every `export *` and re-export reference already
    resolved to its target module, if it has one. */
module EsmExport {
  import opened Wrappers

  type Module = nat

  /** `EsmExport`: one named export of an ESM module. */
  datatype EsmExportEntry =
    | LocalBinding(local: string, mutable: bool)
    | ImportedBinding(reference: nat, target: Option<Module>, name: string, mutable: bool)
    | ImportedNamespace(reference: nat, target: Option<Module>)
    | Error

  /** An `export * from ...` reference and the module it resolves to. */
  datatype StarExport = StarExport(reference: nat, target: Option<Module>)

  /** `EsmExports`: the named exports by name, and the star exports in
      their order. */
  datatype EsmExports = EsmExports(exports: map<string, EsmExportEntry>, starExports: seq<StarExport>)

  /** `EcmascriptExports`. */
  datatype EcmascriptExports =
    | Esm(esm: EsmExports)
    | DynamicNamespace
    | CommonJs
    | EmptyCommonJs
    | Value
    | NoExports
    | Unknown

  type ModuleGraph = map<Module, EcmascriptExports>

  /** The modules a module's star exports resolve to. */
  function StarTargets(e: EcmascriptExports): seq<Module> {
    if e.Esm? then StarTargetsOf(e.esm.starExports) else []
  }

  function StarTargetsOf(stars: seq<StarExport>): (r: seq<Module>)
    ensures forall m :: m in r <==> exists i :: 0 <= i < |stars| && stars[i].target == Some(m)
  {
    if stars == [] then []
    else
      var rest := StarTargetsOf(stars[..|stars| - 1]);
      var last := stars[|stars| - 1];
      assert forall i :: 0 <= i < |stars| - 1 ==> stars[..|stars| - 1][i] == stars[i];
      if last.target.Some? then rest + [last.target.value] else rest
  }

  /** Every module a star export reaches is in the graph. */
  predicate Closed(graph: ModuleGraph) {
    forall m, t :: m in graph && t in StarTargets(graph[m]) ==> t in graph
  }

  // ---------------------------------------------------------------------------
  // expand_star_exports

  /** The warnings of `export *` on a module without named exports. */
  datatype StarExportIssue =
    | HasNoExports(asset: Module)
    | OnlyDefaultExport(asset: Module)
    | CommonJsExports(asset: Module)

  /** The names a module exports, and the first module (in visiting order)
      to export each: `entry(key).or_insert_with(asset)`, "default" left
      out. */
  function AddNames(acc: map<string, Module>, keys: set<string>, m: Module): (r: map<string, Module>)
    ensures acc.Keys <= r.Keys
    ensures forall k :: k in acc ==> r[k] == acc[k]
    ensures forall k :: k in r && k !in acc ==> r[k] == m && k in keys && k != "default"
    ensures forall k :: k in keys && k != "default" ==> k in r
    ensures "default" in acc || "default" !in r
  {
    map k | k in acc.Keys + (keys - {"default"}) :: if k in acc then acc[k] else m
  }

  function NamesOf(e: EcmascriptExports): set<string> {
    if e.Esm? then e.esm.exports.Keys else {}
  }

  /** The names collected from the modules visited, in visiting order. */
  function CollectNames(graph: ModuleGraph, visited: seq<Module>): map<string, Module>
    requires forall m :: m in visited ==> m in graph
  {
    if visited == [] then map[]
    else
      var last := visited[|visited| - 1];
      AddNames(CollectNames(graph, visited[..|visited| - 1]), NamesOf(graph[last]), last)
  }

  predicate IsDynamic(e: EcmascriptExports) {
    e.CommonJs? || e.DynamicNamespace? || e.Unknown?
  }

  /** The visited modules whose exports are only known at run time. */
  function DynamicOf(graph: ModuleGraph, visited: seq<Module>): seq<Module>
    requires forall m :: m in visited ==> m in graph
  {
    if visited == [] then []
    else
      var last := visited[|visited| - 1];
      DynamicOf(graph, visited[..|visited| - 1]) + (if IsDynamic(graph[last]) then [last] else [])
  }

  /** The warning a visited module raises, if any. */
  function IssueFor(e: EcmascriptExports, m: Module): seq<StarExportIssue> {
    match e
    case NoExports => [HasNoExports(m)]
    case EmptyCommonJs => [HasNoExports(m)]
    case Value => [OnlyDefaultExport(m)]
    case CommonJs => [CommonJsExports(m)]
    case _ => []
  }

  function IssuesOf(graph: ModuleGraph, visited: seq<Module>): seq<StarExportIssue>
    requires forall m :: m in visited ==> m in graph
  {
    if visited == [] then []
    else
      var last := visited[|visited| - 1];
      IssuesOf(graph, visited[..|visited| - 1]) + IssueFor(graph[last], last)
  }

  predicate NoDuplicates(s: seq<Module>) {
    forall i, j :: 0 <= i < j < |s| ==> s[i] != s[j]
  }

  /** The outcome of the star-export loop of one module: each target not
      checked yet is marked checked and queued, once. */
  ghost predicate PushedTargets(checked: set<Module>, queue: seq<Module>, targets: seq<Module>,
                          checked': set<Module>, queue': seq<Module>) {
    && checked' == checked + (set t | t in targets)
    && queue <= queue'
    && (forall j :: |queue| <= j < |queue'| ==> queue'[j] in targets && queue'[j] !in checked)
    && (forall t :: t in checked' ==> t in checked || t in queue'[|queue|..])
    && NoDuplicates(queue'[|queue|..])
  }

  /** The star-export loop of one module. */
  method PushStarTargets(checked: set<Module>, queue: seq<Module>, targets: seq<Module>)
    returns (checked': set<Module>, queue': seq<Module>)
    ensures PushedTargets(checked, queue, targets, checked', queue')
  {
    checked', queue' := checked, queue;
    var i := 0;
    while i < |targets|
      invariant 0 <= i <= |targets|
      invariant checked' == checked + set t | t in targets[..i]
      invariant queue <= queue'
      invariant forall j :: |queue| <= j < |queue'| ==> queue'[j] in targets[..i] && queue'[j] !in checked
      invariant forall t :: t in checked' ==> t in checked || t in queue'[|queue|..]
      invariant forall t :: t in queue'[|queue|..] ==> t in checked'
      invariant NoDuplicates(queue'[|queue|..])
    {
      var asset := targets[i];
      assert targets[..i + 1] == targets[..i] + [asset];
      if asset !in checked' {
        checked' := checked' + {asset};
        queue' := queue' + [asset];
        assert queue'[|queue|..] == queue'[|queue|..|queue'| - 1] + [asset];
      }
      i := i + 1;
    }
    assert targets[..i] == targets;
  }

  /** The checked modules are exactly those visited or queued, each once. */
  ghost predicate Partition(checked: set<Module>, queue: seq<Module>, visited: seq<Module>) {
    && (forall m :: m in checked <==> m in visited || m in queue)
    && NoDuplicates(visited) && NoDuplicates(queue)
    && (forall m :: m in visited ==> m !in queue)
  }

  /** Every star target of a visited module is checked. */
  ghost predicate Explored(graph: ModuleGraph, checked: set<Module>, visited: seq<Module>) {
    forall m, t :: m in visited && m in graph && t in StarTargets(graph[m]) ==> t in checked
  }

  /** A module reached from `visited` through one star export. */
  ghost predicate TargetOfVisited(graph: ModuleGraph, visited: seq<Module>, m: Module) {
    exists j :: 0 <= j < |visited| && visited[j] in graph && m in StarTargets(graph[visited[j]])
  }

  /** Every checked module is the root or a star target of a visited one. */
  ghost predicate Reached(graph: ModuleGraph, root: Module, checked: set<Module>, visited: seq<Module>) {
    forall m :: m in checked ==> m == root || TargetOfVisited(graph, visited, m)
  }

  /** The root is queued first and visited first. */
  ghost predicate Started(root: Module, queue: seq<Module>, visited: seq<Module>) {
    && (visited == [] ==> queue == [root])
    && (visited != [] ==> visited[0] == root)
  }

  /** The invariant of the worklist of `expand_star_exports`. */
  ghost predicate Worklist(graph: ModuleGraph, root: Module, checked: set<Module>, queue: seq<Module>, visited: seq<Module>) {
    && checked <= graph.Keys && root in checked
    && Partition(checked, queue, visited)
    && Explored(graph, checked, visited)
    && Reached(graph, root, checked, visited)
    && Started(root, queue, visited)
  }

  /** The modules queued by a step are new: none was checked before. */
  lemma AddedUnchecked(checked: set<Module>, q0: seq<Module>, targets: seq<Module>,
                       checked': set<Module>, queue': seq<Module>)
    requires PushedTargets(checked, q0, targets, checked', queue')
    ensures forall x :: x in queue'[|q0|..] ==> x !in checked && x in checked'
    ensures queue' == q0 + queue'[|q0|..]
    ensures |queue'| > |q0| ==> queue'[|q0|] in checked' - checked
  {
    var added := queue'[|q0|..];
    forall x | x in added
      ensures x !in checked && x in checked'
    {
      var k :| 0 <= k < |added| && added[k] == x;
      assert queue'[|q0| + k] == x;
    }
    if |queue'| > |q0| {
      assert added[0] in added;
    }
  }

  lemma QueueStaysDistinct(checked: set<Module>, q0: seq<Module>, added: seq<Module>)
    requires NoDuplicates(q0) && NoDuplicates(added)
    requires forall x :: x in q0 ==> x in checked
    requires forall x :: x in added ==> x !in checked
    ensures NoDuplicates(q0 + added)
  {
    var q := q0 + added;
    forall i, j | 0 <= i < j < |q|
      ensures q[i] != q[j]
    {
      if j >= |q0| && i < |q0| {
        assert q[i] in q0 && q[j] in added;
      } else if j >= |q0| {
        assert added[i - |q0|] == q[i] && added[j - |q0|] == q[j];
      }
    }
  }

  lemma VisitedStaysDistinct(visited: seq<Module>, a: Module)
    requires NoDuplicates(visited) && a !in visited
    ensures NoDuplicates(visited + [a])
  {
    forall i, j | 0 <= i < j < |visited + [a]|
      ensures (visited + [a])[i] != (visited + [a])[j]
    {
      if j == |visited| {
        assert (visited + [a])[i] == visited[i];
      }
    }
  }

  lemma PartitionStep(checked: set<Module>, queue: seq<Module>, visited: seq<Module>, targets: seq<Module>,
                      checked': set<Module>, queue': seq<Module>)
    requires Partition(checked, queue, visited) && queue != []
    requires PushedTargets(checked, queue[..|queue| - 1], targets, checked', queue')
    ensures Partition(checked', queue', visited + [queue[|queue| - 1]])
  {
    var a := queue[|queue| - 1];
    var q0 := queue[..|queue| - 1];
    var added := queue'[|q0|..];
    assert queue == q0 + [a];
    assert a in queue && a !in q0;
    AddedUnchecked(checked, q0, targets, checked', queue');
    QueueStaysDistinct(checked, q0, added);
    VisitedStaysDistinct(visited, a);
    assert forall m :: m in visited + [a] ==> m in checked;
    assert forall m :: m in checked' ==> m in visited + [a] || m in queue';
  }

  lemma ExploredStep(graph: ModuleGraph, checked: set<Module>, queue: seq<Module>, visited: seq<Module>,
                     checked': set<Module>, queue': seq<Module>)
    requires Explored(graph, checked, visited) && queue != [] && queue[|queue| - 1] in graph
    requires PushedTargets(checked, queue[..|queue| - 1], StarTargets(graph[queue[|queue| - 1]]), checked', queue')
    ensures Explored(graph, checked', visited + [queue[|queue| - 1]])
  {
  }

  lemma ReachedStep(graph: ModuleGraph, root: Module, checked: set<Module>, queue: seq<Module>, visited: seq<Module>,
                    checked': set<Module>, queue': seq<Module>)
    requires Reached(graph, root, checked, visited) && queue != [] && queue[|queue| - 1] in graph
    requires PushedTargets(checked, queue[..|queue| - 1], StarTargets(graph[queue[|queue| - 1]]), checked', queue')
    ensures Reached(graph, root, checked', visited + [queue[|queue| - 1]])
  {
    var a := queue[|queue| - 1];
    var v := visited + [a];
    forall m | m in checked'
      ensures m == root || TargetOfVisited(graph, v, m)
    {
      if m in checked {
        if m != root {
          var j :| 0 <= j < |visited| && visited[j] in graph && m in StarTargets(graph[visited[j]]);
          assert v[j] == visited[j];
        }
      } else {
        assert v[|visited|] == a;
      }
    }
  }

  /** One pop of the worklist keeps its invariant and shrinks the work left:
      fewer unchecked modules, or as many and a shorter queue. */
  lemma WorklistStep(graph: ModuleGraph, root: Module, checked: set<Module>, queue: seq<Module>, visited: seq<Module>,
                     checked': set<Module>, queue': seq<Module>)
    requires Closed(graph) && Worklist(graph, root, checked, queue, visited) && queue != []
    requires PushedTargets(checked, queue[..|queue| - 1], StarTargets(graph[queue[|queue| - 1]]), checked', queue')
    ensures Worklist(graph, root, checked', queue', visited + [queue[|queue| - 1]])
    ensures graph.Keys - checked' < graph.Keys - checked || (checked' == checked && |queue'| < |queue|)
  {
    var a := queue[|queue| - 1];
    assert a in checked;
    PartitionStep(checked, queue, visited, StarTargets(graph[a]), checked', queue');
    ExploredStep(graph, checked, queue, visited, checked', queue');
    ReachedStep(graph, root, checked, queue, visited, checked', queue');
    if checked' != checked {
      var t :| t in checked' && t !in checked;
      assert t in graph.Keys - checked;
    }
    if checked' == checked {
      AddedUnchecked(checked, queue[..|queue| - 1], StarTargets(graph[a]), checked', queue');
    }
  }

  /** Visiting one more module adds its names, its dynamic exports and its
      warning after those of the modules before it. */
  lemma VisitOne(graph: ModuleGraph, before: seq<Module>, asset: Module)
    requires asset in graph && forall m :: m in before ==> m in graph
    ensures forall m :: m in before + [asset] ==> m in graph
    ensures CollectNames(graph, before + [asset]) == AddNames(CollectNames(graph, before), NamesOf(graph[asset]), asset)
    ensures DynamicOf(graph, before + [asset]) == DynamicOf(graph, before) + (if IsDynamic(graph[asset]) then [asset] else [])
    ensures IssuesOf(graph, before + [asset]) == IssuesOf(graph, before) + IssueFor(graph[asset], asset)
  {
    assert (before + [asset])[..|before|] == before;
  }

  /** The body of the worklist loop for one module taken from it: an ESM
      module adds its names and queues its star targets; the others are
      recorded as dynamic or warned about. */
  method VisitModule(graph: ModuleGraph, asset: Module, esmExports: map<string, Module>,
                     dynamicExportingModules: seq<Module>, issues: seq<StarExportIssue>,
                     checked: set<Module>, queue: seq<Module>)
    returns (esmExports': map<string, Module>, dynamicExportingModules': seq<Module>, issues': seq<StarExportIssue>,
             checked': set<Module>, queue': seq<Module>)
    requires asset in graph
    ensures esmExports' == AddNames(esmExports, NamesOf(graph[asset]), asset)
    ensures dynamicExportingModules' == dynamicExportingModules + (if IsDynamic(graph[asset]) then [asset] else [])
    ensures issues' == issues + IssueFor(graph[asset], asset)
    ensures PushedTargets(checked, queue, StarTargets(graph[asset]), checked', queue')
  {
    esmExports', dynamicExportingModules', issues', checked', queue' := esmExports, dynamicExportingModules, issues, checked, queue;
    match graph[asset] {
      case Esm(e) =>
        esmExports' := AddNames(esmExports, e.exports.Keys, asset);
        checked', queue' := PushStarTargets(checked, queue, StarTargetsOf(e.starExports));
      case NoExports =>
        issues' := issues + [HasNoExports(asset)];
      case EmptyCommonJs =>
        issues' := issues + [HasNoExports(asset)];
      case Value =>
        issues' := issues + [OnlyDefaultExport(asset)];
      case CommonJs =>
        dynamicExportingModules' := dynamicExportingModules + [asset];
        issues' := issues + [CommonJsExports(asset)];
      case DynamicNamespace =>
        dynamicExportingModules' := dynamicExportingModules + [asset];
      case Unknown =>
        dynamicExportingModules' := dynamicExportingModules + [asset];
    }
    assert graph[asset].Esm? || (checked' == checked && queue' == queue && queue'[|queue|..] == []);
  }

  /** `expand_star_exports`: the names exported through `export *` chains
      from `root`, each with the first module exporting it, the modules whose
      exports are only known at run time, and the warnings. The worklist is
      a stack; `visited` is the order modules are taken from it. */
  method ExpandStarExports(graph: ModuleGraph, root: Module)
    returns (esmExports: map<string, Module>, dynamicExportingModules: seq<Module>, issues: seq<StarExportIssue>,
             ghost visited: seq<Module>)
    requires root in graph && Closed(graph)
    ensures forall m :: m in visited ==> m in graph
    ensures esmExports == CollectNames(graph, visited)
    ensures dynamicExportingModules == DynamicOf(graph, visited)
    ensures issues == IssuesOf(graph, visited)
    ensures |visited| > 0 && visited[0] == root && NoDuplicates(visited)
    ensures Explored(graph, (set m | m in visited), visited)
    ensures forall m :: m in visited ==> m == root || TargetOfVisited(graph, visited, m)
  {
    esmExports, dynamicExportingModules, issues := map[], [], [];
    var checked: set<Module> := {root};
    var queue: seq<Module> := [root];
    visited := [];
    while queue != []
      invariant Worklist(graph, root, checked, queue, visited)
      invariant esmExports == CollectNames(graph, visited)
      invariant dynamicExportingModules == DynamicOf(graph, visited)
      invariant issues == IssuesOf(graph, visited)
      decreases graph.Keys - checked, |queue|
    {
      ghost var before, checked0, queue0 := visited, checked, queue;
      var asset := queue[|queue| - 1];
      queue := queue[..|queue| - 1];
      visited := visited + [asset];
      VisitOne(graph, before, asset);
      esmExports, dynamicExportingModules, issues, checked, queue :=
        VisitModule(graph, asset, esmExports, dynamicExportingModules, issues, checked, queue);
      WorklistStep(graph, root, checked0, queue0, before, checked, queue);
    }
  }

  /** The first module exporting a name wins: a name maps to the earliest
      visited module that declares it, and "default" is never collected. */
  lemma {:induction false} FirstExporterWins(graph: ModuleGraph, visited: seq<Module>, name: string)
    requires forall m :: m in visited ==> m in graph
    ensures "default" !in CollectNames(graph, visited)
    ensures name in CollectNames(graph, visited) ==>
      exists k :: 0 <= k < |visited| && visited[k] == CollectNames(graph, visited)[name]
                  && name in NamesOf(graph[visited[k]])
                  && forall j :: 0 <= j < k ==> name !in NamesOf(graph[visited[j]])
    ensures name != "default" && (exists k :: 0 <= k < |visited| && name in NamesOf(graph[visited[k]])) ==>
      name in CollectNames(graph, visited)
  {
    if visited != [] {
      var prefix := visited[..|visited| - 1];
      var last := visited[|visited| - 1];
      FirstExporterWins(graph, prefix, name);
      var before := CollectNames(graph, prefix);
      var after := CollectNames(graph, visited);
      assert forall j :: 0 <= j < |prefix| ==> prefix[j] == visited[j];
      if name in after && name !in before {
        assert after[name] == last && name in NamesOf(graph[last]);
        assert forall j :: 0 <= j < |prefix| ==> name !in NamesOf(graph[visited[j]]);
      }
    }
  }

  /** A module reached only through modules without named exports is
      reported as dynamic exactly when its exports are dynamic. */
  lemma {:induction false} DynamicMembers(graph: ModuleGraph, visited: seq<Module>, m: Module)
    requires forall x :: x in visited ==> x in graph
    ensures m in DynamicOf(graph, visited) <==> m in visited && IsDynamic(graph[m])
  {
    if visited != [] {
      DynamicMembers(graph, visited[..|visited| - 1], m);
      assert visited == visited[..|visited| - 1] + [visited[|visited| - 1]];
    }
  }

  // ---------------------------------------------------------------------------
  // expand_exports

  /** `ModuleExportUsageInfo`: every export used, or a predicate saying which
      are. */
  datatype ExportUsage = All | Used(isUsed: string -> bool)

  predicate IsExportUsed(usage: ExportUsage, name: string) {
    usage.All? || usage.isUsed(name)
  }

  /** `ExpandStarResult`: what `expand_star_exports` gives for a module,
      its collected names with their modules and its dynamically exporting
      modules. */
  datatype ExpandStarResult = ExpandStarResult(esmExports: map<string, Module>, dynamicExportingModules: seq<Module>)

  /** The names a star export adds: used, not "default", not yet exported;
      each as a binding imported through that star export. */
  function AddStarNames(exports: map<string, EsmExportEntry>, names: set<string>, star: StarExport, usage: ExportUsage)
    : (r: map<string, EsmExportEntry>)
    ensures forall k :: k in exports ==> k in r && r[k] == exports[k]
    ensures forall k :: k in r && k !in exports ==>
      k in names && k != "default" && IsExportUsed(usage, k) && r[k] == ImportedBinding(star.reference, star.target, k, false)
    ensures forall k :: k in names && k != "default" && IsExportUsed(usage, k) ==> k in r
  {
    map k | k in exports.Keys + (set n | n in names && n != "default" && IsExportUsed(usage, n)) ::
      if k in exports then exports[k] else ImportedBinding(star.reference, star.target, k, false)
  }

  /** `entry` is the binding one of `stars` adds for the name `k`. */
  ghost predicate AddedByStar(stars: seq<StarExport>, expand: Module -> ExpandStarResult, k: string, entry: EsmExportEntry) {
    exists j :: 0 <= j < |stars| && stars[j].target.Some?
                && k in expand(stars[j].target.value).esmExports
                && entry == ImportedBinding(stars[j].reference, stars[j].target, k, false)
  }

  /** `m` is the target of one of `stars` with dynamic re-exporters. */
  ghost predicate DynamicStar(stars: seq<StarExport>, expand: Module -> ExpandStarResult, m: Module) {
    exists j :: 0 <= j < |stars| && stars[j].target == Some(m) && expand(m).dynamicExportingModules != []
  }

  /** The names `expand_exports` gives after the star exports `stars`. */
  ghost predicate NamesExpandedBy(declared: map<string, EsmExportEntry>, usage: ExportUsage, stars: seq<StarExport>,
                                  expand: Module -> ExpandStarResult, exports: map<string, EsmExportEntry>) {
    && (forall k :: k in declared && IsExportUsed(usage, k) ==> k in exports && exports[k] == declared[k])
    && (forall k :: k in exports && k !in declared ==>
          k != "default" && IsExportUsed(usage, k) && AddedByStar(stars, expand, k, exports[k]))
    && (forall k :: k in exports ==> IsExportUsed(usage, k))
  }

  /** The modules with dynamic re-exporters after the star exports `stars`. */
  ghost predicate DynamicExpandedBy(stars: seq<StarExport>, expand: Module -> ExpandStarResult, dynamicExports: seq<Module>) {
    forall m :: m in dynamicExports <==> DynamicStar(stars, expand, m)
  }

  /** One more star export keeps the names `expand_exports` promises. */
  lemma NamesExpandedByStep(declared: map<string, EsmExportEntry>, usage: ExportUsage, stars: seq<StarExport>,
                            expand: Module -> ExpandStarResult, exports: map<string, EsmExportEntry>, star: StarExport)
    requires NamesExpandedBy(declared, usage, stars, expand, exports)
    ensures star.target.None? ==> NamesExpandedBy(declared, usage, stars + [star], expand, exports)
    ensures star.target.Some? ==>
      NamesExpandedBy(declared, usage, stars + [star], expand, AddStarNames(exports, expand(star.target.value).esmExports.Keys, star, usage))
  {
    var stars' := stars + [star];
    assert stars'[|stars|] == star;
    forall k, entry | AddedByStar(stars, expand, k, entry)
      ensures AddedByStar(stars', expand, k, entry)
    {
      var j :| 0 <= j < |stars| && stars[j].target.Some? && k in expand(stars[j].target.value).esmExports
               && entry == ImportedBinding(stars[j].reference, stars[j].target, k, false);
      assert stars'[j] == stars[j];
    }
  }

  /** One more star export keeps the modules `expand_exports` records. */
  lemma DynamicExpandedByStep(stars: seq<StarExport>, expand: Module -> ExpandStarResult, dynamicExports: seq<Module>, star: StarExport)
    requires DynamicExpandedBy(stars, expand, dynamicExports)
    ensures star.target.Some? && expand(star.target.value).dynamicExportingModules != [] ==>
      DynamicExpandedBy(stars + [star], expand, dynamicExports + [star.target.value])
    ensures star.target.None? || expand(star.target.value).dynamicExportingModules == [] ==>
      DynamicExpandedBy(stars + [star], expand, dynamicExports)
  {
    var stars' := stars + [star];
    assert stars'[|stars|] == star;
    forall m: Module
      ensures DynamicStar(stars', expand, m) <==>
        DynamicStar(stars, expand, m) || (star.target == Some(m) && expand(m).dynamicExportingModules != [])
    {
      if DynamicStar(stars', expand, m) {
        var j :| 0 <= j < |stars'| && stars'[j].target == Some(m) && expand(m).dynamicExportingModules != [];
        if j < |stars| {
          assert stars[j] == stars'[j];
        }
      }
      if DynamicStar(stars, expand, m) {
        var j :| 0 <= j < |stars| && stars[j].target == Some(m) && expand(m).dynamicExportingModules != [];
        assert stars'[j] == stars[j];
      }
    }
  }

  /** The loop body of `expand_exports` for one star export: an unresolved
      one is skipped; a resolved one adds the used names it brings that are
      not yet exported, and its module when it has dynamic re-exporters. */
  method ExpandStar(declared: map<string, EsmExportEntry>, usage: ExportUsage, stars: seq<StarExport>,
                    expand: Module -> ExpandStarResult, exports: map<string, EsmExportEntry>, dynamicExports: seq<Module>,
                    star: StarExport)
    returns (exports': map<string, EsmExportEntry>, dynamicExports': seq<Module>)
    requires NamesExpandedBy(declared, usage, stars, expand, exports)
    requires DynamicExpandedBy(stars, expand, dynamicExports)
    ensures NamesExpandedBy(declared, usage, stars + [star], expand, exports')
    ensures DynamicExpandedBy(stars + [star], expand, dynamicExports')
  {
    NamesExpandedByStep(declared, usage, stars, expand, exports, star);
    DynamicExpandedByStep(stars, expand, dynamicExports, star);
    exports', dynamicExports' := exports, dynamicExports;
    if star.target.Some? {
      var info := expand(star.target.value);
      exports' := AddStarNames(exports, info.esmExports.Keys, star, usage);
      if info.dynamicExportingModules != [] {
        dynamicExports' := dynamicExports + [star.target.value];
      }
    }
  }

  /** `expand_exports`: the declared exports (only the used ones unless all
      are used), then, for each resolved star export, the used names it adds
      that are not already exported; the modules with dynamic re-exporters
      are collected. `expand` gives `expand_star_exports` of a module. */
  method ExpandExports(e: EsmExports, usage: ExportUsage, expand: Module -> ExpandStarResult)
    returns (exports: map<string, EsmExportEntry>, dynamicExports: seq<Module>)
    ensures forall k :: k in e.exports && IsExportUsed(usage, k) ==>
      k in exports && exports[k] == e.exports[k]
    ensures forall k :: k in exports && k !in e.exports ==>
      k != "default" && IsExportUsed(usage, k) && AddedByStar(e.starExports, expand, k, exports[k])
    ensures forall k :: k in exports ==> IsExportUsed(usage, k)
    ensures forall m :: m in dynamicExports <==> DynamicStar(e.starExports, expand, m)
  {
    var declared := e.exports;
    exports := if usage.All? then declared else map k | k in declared && IsExportUsed(usage, k) :: declared[k];
    dynamicExports := [];
    assert NamesExpandedBy(declared, usage, [], expand, exports);
    var i := 0;
    while i < |e.starExports|
      invariant 0 <= i <= |e.starExports|
      invariant NamesExpandedBy(declared, usage, e.starExports[..i], expand, exports)
      invariant DynamicExpandedBy(e.starExports[..i], expand, dynamicExports)
    {
      var star := e.starExports[i];
      assert e.starExports[..i + 1] == e.starExports[..i] + [star];
      exports, dynamicExports := ExpandStar(declared, usage, e.starExports[..i], expand, exports, dynamicExports, star);
      i := i + 1;
    }
    assert e.starExports[..i] == e.starExports;
  }


  // ---------------------------------------------------------------------------
  // get_all_export_names and is_export_missing

  /** `AllExportNamesResult`: every name a module exports with the module
      providing it, and the modules exporting dynamically. */
  datatype AllExportNames = AllExportNames(esmExports: map<string, Module>, dynamicExportingModules: seq<Module>)

  /** `acc` extended by the expansions of the star exports `stars`, in order:
      a later expansion replaces the module of a name an earlier one gave,
      and the dynamic modules are appended. */
  function ExtendStars(acc: AllExportNames, stars: seq<StarExport>, expand: Module -> ExpandStarResult): AllExportNames {
    if stars == [] then acc
    else
      var r := ExtendStars(acc, stars[..|stars| - 1], expand);
      var star := stars[|stars| - 1];
      if star.target.Some? then
        var info := expand(star.target.value);
        AllExportNames(r.esmExports + info.esmExports, r.dynamicExportingModules + info.dynamicExportingModules)
      else r
  }

  /** The declared names of an ESM module, each provided by the module. */
  function LocalNames(e: EsmExports, asset: Module): map<string, Module> {
    map k | k in e.exports :: asset
  }

  /** `get_all_export_names`, where `expand` gives `expand_star_exports` of a
      module. */
  function AllExportNamesOf(graph: ModuleGraph, asset: Module, expand: Module -> ExpandStarResult): AllExportNames
    requires asset in graph
  {
    match graph[asset]
    case Esm(e) => ExtendStars(AllExportNames(LocalNames(e, asset), []), e.starExports, expand)
    case _ => AllExportNames(map[], [asset])
  }

  /** `get_all_export_names`: a module without ESM exports is itself the one
      dynamic module; an ESM module's declared names, extended by each
      resolved star export's expansion in turn. */
  method GetAllExportNames(graph: ModuleGraph, asset: Module, expand: Module -> ExpandStarResult) returns (r: AllExportNames)
    requires asset in graph
    ensures r == AllExportNamesOf(graph, asset, expand)
  {
    if !graph[asset].Esm? {
      return AllExportNames(map[], [asset]);
    }
    var e := graph[asset].esm;
    var esmExports := LocalNames(e, asset);
    var dynamicExportingModules: seq<Module> := [];
    var i := 0;
    while i < |e.starExports|
      invariant 0 <= i <= |e.starExports|
      invariant AllExportNames(esmExports, dynamicExportingModules)
             == ExtendStars(AllExportNames(LocalNames(e, asset), []), e.starExports[..i], expand)
    {
      var star := e.starExports[i];
      assert e.starExports[..i + 1][..i] == e.starExports[..i];
      if star.target.Some? {
        var info := expand(star.target.value);
        esmExports := esmExports + info.esmExports;
        dynamicExportingModules := dynamicExportingModules + info.dynamicExportingModules;
      }
      i := i + 1;
    }
    assert e.starExports[..i] == e.starExports;
    r := AllExportNames(esmExports, dynamicExportingModules);
  }

  /** Some resolved star export among `stars` brings the name `k`. */
  ghost predicate SomeStarProvides(stars: seq<StarExport>, expand: Module -> ExpandStarResult, k: string) {
    exists i :: 0 <= i < |stars| && stars[i].target.Some? && k in expand(stars[i].target.value).esmExports
  }

  /** A name is known exactly when the start knew it or some star export
      brings it, and the start's module stands when none does. */
  lemma {:induction false} ExtendStarsNames(acc: AllExportNames, stars: seq<StarExport>, expand: Module -> ExpandStarResult, k: string)
    ensures var r := ExtendStars(acc, stars, expand).esmExports;
      && (k in r <==> k in acc.esmExports || SomeStarProvides(stars, expand, k))
      && (k in acc.esmExports && !SomeStarProvides(stars, expand, k) ==> r[k] == acc.esmExports[k])
  {
    if stars != [] {
      var prefix := stars[..|stars| - 1];
      ExtendStarsNames(acc, prefix, expand, k);
      assert forall i :: 0 <= i < |prefix| ==> prefix[i] == stars[i];
      assert stars == prefix + [stars[|stars| - 1]];
    }
  }

  /** The last star export bringing a name decides its module. */
  lemma {:induction false} ExtendStarsLastWins(acc: AllExportNames, stars: seq<StarExport>, expand: Module -> ExpandStarResult, k: string)
    requires SomeStarProvides(stars, expand, k)
    ensures k in ExtendStars(acc, stars, expand).esmExports
    ensures exists j :: 0 <= j < |stars| && stars[j].target.Some? && k in expand(stars[j].target.value).esmExports
                        && ExtendStars(acc, stars, expand).esmExports[k] == expand(stars[j].target.value).esmExports[k]
                        && !SomeStarProvides(stars[j + 1..], expand, k)
  {
    var prefix := stars[..|stars| - 1];
    var star := stars[|stars| - 1];
    assert stars == prefix + [star];
    if star.target.Some? && k in expand(star.target.value).esmExports {
      var j := |stars| - 1;
      assert ExtendStars(acc, stars, expand).esmExports[k] == expand(stars[j].target.value).esmExports[k];
      assert stars[j + 1..] == [];
    } else {
      var i :| 0 <= i < |stars| && stars[i].target.Some? && k in expand(stars[i].target.value).esmExports;
      assert prefix[i] == stars[i];
      ExtendStarsLastWins(acc, prefix, expand, k);
      var j :| 0 <= j < |prefix| && prefix[j].target.Some? && k in expand(prefix[j].target.value).esmExports
               && ExtendStars(acc, prefix, expand).esmExports[k] == expand(prefix[j].target.value).esmExports[k]
               && !SomeStarProvides(prefix[j + 1..], expand, k);
      LastWinsSnoc(acc, prefix, star, expand, k, j);
    }
  }

  /** A star export that does not bring `k` keeps the last one that did as
      the provider of `k`. */
  lemma LastWinsSnoc(acc: AllExportNames, prefix: seq<StarExport>, star: StarExport, expand: Module -> ExpandStarResult, k: string, j: nat)
    requires j < |prefix| && prefix[j].target.Some? && k in expand(prefix[j].target.value).esmExports
    requires k in ExtendStars(acc, prefix, expand).esmExports
    requires ExtendStars(acc, prefix, expand).esmExports[k] == expand(prefix[j].target.value).esmExports[k]
    requires !SomeStarProvides(prefix[j + 1..], expand, k)
    requires !(star.target.Some? && k in expand(star.target.value).esmExports)
    ensures var stars := prefix + [star];
      && k in ExtendStars(acc, stars, expand).esmExports
      && ExtendStars(acc, stars, expand).esmExports[k] == expand(stars[j].target.value).esmExports[k]
      && !SomeStarProvides(stars[j + 1..], expand, k)
  {
    var stars := prefix + [star];
    assert stars[..|stars| - 1] == prefix;
    assert stars[j] == prefix[j];
    assert stars[j + 1..] == prefix[j + 1..] + [star];
    NoStarProvidesSnoc(prefix[j + 1..], star, expand, k);
  }

  /** A star export that does not bring `k`, after star exports that do not,
      leaves `k` unprovided. */
  lemma NoStarProvidesSnoc(stars: seq<StarExport>, star: StarExport, expand: Module -> ExpandStarResult, k: string)
    requires !SomeStarProvides(stars, expand, k)
    requires !(star.target.Some? && k in expand(star.target.value).esmExports)
    ensures !SomeStarProvides(stars + [star], expand, k)
  {
    var all := stars + [star];
    forall i | 0 <= i < |all| && all[i].target.Some?
      ensures k !in expand(all[i].target.value).esmExports
    {
      if i < |stars| {
        assert all[i] == stars[i];
      }
    }
  }

  /** A dynamic module is known exactly when the start knew it or the
      expansion of some resolved star export has it. */
  lemma {:induction false} ExtendStarsDynamic(acc: AllExportNames, stars: seq<StarExport>, expand: Module -> ExpandStarResult, m: Module)
    ensures m in ExtendStars(acc, stars, expand).dynamicExportingModules <==>
      m in acc.dynamicExportingModules
      || exists i :: 0 <= i < |stars| && stars[i].target.Some? && m in expand(stars[i].target.value).dynamicExportingModules
  {
    if stars != [] {
      var prefix := stars[..|stars| - 1];
      ExtendStarsDynamic(acc, prefix, expand, m);
      assert forall i :: 0 <= i < |prefix| ==> prefix[i] == stars[i];
    }
  }

  /** Some module that might export any name at run time. */
  predicate SomeDynamicProvider(graph: ModuleGraph, modules: seq<Module>) {
    exists i :: 0 <= i < |modules| && modules[i] in graph
                && (graph[modules[i]].Value? || graph[modules[i]].CommonJs?
                    || graph[modules[i]].DynamicNamespace? || graph[modules[i]].Unknown?)
  }

  /** `is_export_missing`: whether importing `exportName` from the module
      certainly fails. Dynamically exporting modules outside the graph count
      as providing nothing. */
  function IsExportMissing(graph: ModuleGraph, asset: Module, exportName: string, expand: Module -> ExpandStarResult): (r: bool)
    requires asset in graph
    ensures exportName == "__turbopack_module_id__" ==> !r
    ensures exportName != "__turbopack_module_id__" ==>
      && (graph[asset].NoExports? ==> r)
      && (graph[asset].EmptyCommonJs? ==> (r <==> exportName != "default"))
      && (graph[asset].Unknown? || graph[asset].Value? || graph[asset].CommonJs? || graph[asset].DynamicNamespace? ==> !r)
    ensures exportName != "__turbopack_module_id__" && graph[asset].Esm? ==>
      var e := graph[asset].esm;
      var all := AllExportNamesOf(graph, asset, expand);
      && (exportName in e.exports ==> !r)
      && (exportName !in e.exports && exportName == "default" ==> r)
      && (exportName !in e.exports && e.starExports == [] ==> r)
      && (exportName !in e.exports && exportName != "default" && e.starExports != [] ==>
            (r <==> exportName !in all.esmExports && !SomeDynamicProvider(graph, all.dynamicExportingModules)))
  {
    if exportName == "__turbopack_module_id__" then false
    else match graph[asset]
      case NoExports => true
      case Unknown => false
      case Value => false
      case CommonJs => false
      case EmptyCommonJs => exportName != "default"
      case DynamicNamespace => false
      case Esm(e) =>
        if exportName in e.exports then false
        else if exportName == "default" then true
        else if e.starExports == [] then true
        else
          var all := AllExportNamesOf(graph, asset, expand);
          if exportName in all.esmExports then false
          else !SomeDynamicProvider(graph, all.dynamicExportingModules)
  }

  /** An undeclared name behind star exports is missing exactly when no
      star export's expansion brings it and no dynamically exporting module
      might. */
  lemma MissingIffUnprovided(graph: ModuleGraph, asset: Module, exportName: string, expand: Module -> ExpandStarResult)
    requires asset in graph && graph[asset].Esm?
    requires exportName != "__turbopack_module_id__" && exportName != "default"
    requires exportName !in graph[asset].esm.exports && graph[asset].esm.starExports != []
    ensures IsExportMissing(graph, asset, exportName, expand) <==>
      && !SomeStarProvides(graph[asset].esm.starExports, expand, exportName)
      && !SomeDynamicProvider(graph, AllExportNamesOf(graph, asset, expand).dynamicExportingModules)
  {
    var e := graph[asset].esm;
    ExtendStarsNames(AllExportNames(LocalNames(e, asset), []), e.starExports, expand, exportName);
  }

  // ---------------------------------------------------------------------------
  // follow_reexports

  datatype FoundExportType = Found | Dynamic | NotFound | SideEffects | UnknownExport

  datatype FollowExportsResult = FollowExportsResult(asset: Module, exportName: Option<string>, ty: FoundExportType)

  /** `FindExportFromReexportsResult`. */
  datatype FindExportResult = FindExportResult(esmExport: Option<Module>, dynamicExportingModules: seq<Module>)

  /** `find_export_from_reexports`: the module `get_all_export_names` gives
      for the name, if any, and the dynamically exporting modules. */
  function FindExportFromReexports(graph: ModuleGraph, asset: Module, exportName: string, expand: Module -> ExpandStarResult)
    : (r: FindExportResult)
    requires asset in graph
  {
    var all := AllExportNamesOf(graph, asset, expand);
    FindExportResult(if exportName in all.esmExports then Some(all.esmExports[exportName]) else None,
                     all.dynamicExportingModules)
  }

  /** For a name an ESM module does not declare, the search through its star
      exports finds a module exactly when some resolved star export brings
      the name, and reports the dynamic modules of their expansions. */
  lemma FindExportOutcome(graph: ModuleGraph, asset: Module, exportName: string, expand: Module -> ExpandStarResult)
    requires asset in graph && graph[asset].Esm? && exportName !in graph[asset].esm.exports
    ensures var r := FindExportFromReexports(graph, asset, exportName, expand);
      var stars := graph[asset].esm.starExports;
      && (r.esmExport.Some? <==> SomeStarProvides(stars, expand, exportName))
      && (forall m :: m in r.dynamicExportingModules <==>
            exists i :: 0 <= i < |stars| && stars[i].target.Some? && m in expand(stars[i].target.value).dynamicExportingModules)
  {
    var e := graph[asset].esm;
    var acc := AllExportNames(LocalNames(e, asset), []);
    ExtendStarsNames(acc, e.starExports, expand, exportName);
    forall m | true
      ensures m in ExtendStars(acc, e.starExports, expand).dynamicExportingModules <==>
        exists i :: 0 <= i < |e.starExports| && e.starExports[i].target.Some? && m in expand(e.starExports[i].target.value).dynamicExportingModules
    {
      ExtendStarsDynamic(acc, e.starExports, expand, m);
    }
  }

  /** One step of the search: a result, or the module and name to look at
      next. */
  datatype Step = Done(result: FollowExportsResult) | Continue(next: Module, name: string)

  /** `handle_declared_export`: a binding imported from a resolved module is
      followed there; a namespace re-export or a local binding is found; an
      error or an unresolved reference is unknown. */
  function HandleDeclaredExport(asset: Module, exportName: string, entry: EsmExportEntry): (r: Step)
    ensures r.Continue? <==> entry.ImportedBinding? && entry.target.Some?
    ensures r.Continue? ==> r == Continue(entry.target.value, entry.name)
    ensures r.Done? && r.result.ty == Found <==> entry.LocalBinding? || (entry.ImportedNamespace? && entry.target.Some?)
    ensures r.Done? && r.result.exportName.None? <==> entry.ImportedNamespace? && entry.target.Some?
    ensures r.Done? && r.result.exportName.Some? ==> r.result == FollowExportsResult(asset, Some(exportName), r.result.ty)
  {
    match entry
    case ImportedBinding(_, Some(m), name, _) => Continue(m, name)
    case ImportedNamespace(_, Some(m)) => Done(FollowExportsResult(m, None, Found))
    case LocalBinding(_, _) => Done(FollowExportsResult(asset, Some(exportName), Found))
    case _ => Done(FollowExportsResult(asset, Some(exportName), UnknownExport))
  }

  /** One pass of the loop of `follow_reexports`. */
  function FollowStep(graph: ModuleGraph, asset: Module, exportName: string, ignoreSideEffects: bool,
                      sideEffectFree: Module -> bool, expand: Module -> ExpandStarResult): Step
    requires asset in graph
  {
    if !graph[asset].Esm? then Done(FollowExportsResult(asset, Some(exportName), Dynamic))
    else if !ignoreSideEffects && !sideEffectFree(asset) then Done(FollowExportsResult(asset, Some(exportName), SideEffects))
    else
      var e := graph[asset].esm;
      if exportName in e.exports then HandleDeclaredExport(asset, exportName, e.exports[exportName])
      else if e.starExports != [] && exportName != "default" then
        var found := FindExportFromReexports(graph, asset, exportName, expand);
        if found.esmExport.Some? then Continue(found.esmExport.value, exportName)
        else if found.dynamicExportingModules == [] then Done(FollowExportsResult(asset, Some(exportName), NotFound))
        else if |found.dynamicExportingModules| == 1 then
          Done(FollowExportsResult(found.dynamicExportingModules[0], Some(exportName), Dynamic))
        else Done(FollowExportsResult(asset, Some(exportName), Dynamic))
      else Done(FollowExportsResult(asset, Some(exportName), NotFound))
  }

  /** Every module the search moves to is in the graph. */
  ghost predicate StepsStayInGraph(graph: ModuleGraph, sideEffectFree: Module -> bool, expand: Module -> ExpandStarResult) {
    forall m, n, ignore :: m in graph && FollowStep(graph, m, n, ignore, sideEffectFree, expand).Continue? ==>
      FollowStep(graph, m, n, ignore, sideEffectFree, expand).next in graph
  }

  /** `follow_reexports`, taking at most `fuel` steps; None when the chain of
      re-exports is longer. Side effects are ignored, if asked, for the entry
      module only. */
  function FollowReexports(graph: ModuleGraph, asset: Module, exportName: string, ignoreSideEffects: bool,
                           sideEffectFree: Module -> bool, expand: Module -> ExpandStarResult, fuel: nat)
    : Option<FollowExportsResult>
    requires asset in graph && StepsStayInGraph(graph, sideEffectFree, expand)
    decreases fuel
  {
    if fuel == 0 then None
    else match FollowStep(graph, asset, exportName, ignoreSideEffects, sideEffectFree, expand)
      case Done(result) => Some(result)
      case Continue(m, n) => FollowReexports(graph, m, n, false, sideEffectFree, expand, fuel - 1)
  }

  /** The loop of `follow_reexports`, reassigning the module and the name. */
  method FollowReexportsLoop(graph: ModuleGraph, asset: Module, exportName: string, ignoreSideEffectOfEntry: bool,
                             sideEffectFree: Module -> bool, expand: Module -> ExpandStarResult, fuel: nat)
    returns (r: Option<FollowExportsResult>)
    requires asset in graph && StepsStayInGraph(graph, sideEffectFree, expand)
    ensures r == FollowReexports(graph, asset, exportName, ignoreSideEffectOfEntry, sideEffectFree, expand, fuel)
  {
    var ignoreSideEffects := ignoreSideEffectOfEntry;
    var current, name := asset, exportName;
    var steps := fuel;
    while steps > 0
      invariant current in graph
      invariant FollowReexports(graph, current, name, ignoreSideEffects, sideEffectFree, expand, steps)
             == FollowReexports(graph, asset, exportName, ignoreSideEffectOfEntry, sideEffectFree, expand, fuel)
      decreases steps
    {
      match FollowStep(graph, current, name, ignoreSideEffects, sideEffectFree, expand) {
        case Done(result) =>
          return Some(result);
        case Continue(m, n) =>
          current, name := m, n;
          ignoreSideEffects := false;
          steps := steps - 1;
      }
    }
    r := None;
  }

  /** What each outcome of the search means: a name found with its name is a
      local binding of the module the search ends at; a stop for side
      effects is at an ESM module not marked side-effect free; a name not
      found is not declared by the ESM module the search ends at. */
  lemma {:induction false} FollowOutcomes(graph: ModuleGraph, asset: Module, exportName: string, ignoreSideEffects: bool,
                                          sideEffectFree: Module -> bool, expand: Module -> ExpandStarResult, fuel: nat)
    requires asset in graph && StepsStayInGraph(graph, sideEffectFree, expand)
    ensures var r := FollowReexports(graph, asset, exportName, ignoreSideEffects, sideEffectFree, expand, fuel);
      r.Some? && r.value.ty in {Found, SideEffects, NotFound} && r.value.exportName.Some? ==>
        var m := r.value.asset;
        var n := r.value.exportName.value;
        && m in graph && graph[m].Esm?
        && (r.value.ty == Found ==> n in graph[m].esm.exports && graph[m].esm.exports[n].LocalBinding?)
        && (r.value.ty == SideEffects ==> !sideEffectFree(m))
        && (r.value.ty == NotFound ==> n !in graph[m].esm.exports)
    decreases fuel
  {
    if fuel > 0 {
      match FollowStep(graph, asset, exportName, ignoreSideEffects, sideEffectFree, expand)
      case Done(_) =>
      case Continue(m, n) =>
        FollowOutcomes(graph, m, n, false, sideEffectFree, expand, fuel - 1);
    }
  }

  /** At an ESM module that may be entered and does not declare the name,
      a star export bringing the name moves the search, under the same name,
      to the module the last such star export gives; when none brings it and
      no module exports dynamically, the name is not found there. */
  lemma FollowStarStep(graph: ModuleGraph, asset: Module, exportName: string, ignoreSideEffects: bool,
                       sideEffectFree: Module -> bool, expand: Module -> ExpandStarResult)
    requires asset in graph && graph[asset].Esm? && (ignoreSideEffects || sideEffectFree(asset))
    requires exportName !in graph[asset].esm.exports && exportName != "default" && graph[asset].esm.starExports != []
    ensures var step := FollowStep(graph, asset, exportName, ignoreSideEffects, sideEffectFree, expand);
      var stars := graph[asset].esm.starExports;
      && (SomeStarProvides(stars, expand, exportName) ==>
            && step.Continue? && step.name == exportName
            && exists j :: 0 <= j < |stars| && stars[j].target.Some? && exportName in expand(stars[j].target.value).esmExports
                           && step.next == expand(stars[j].target.value).esmExports[exportName]
                           && !SomeStarProvides(stars[j + 1..], expand, exportName))
      && (!SomeStarProvides(stars, expand, exportName) && AllExportNamesOf(graph, asset, expand).dynamicExportingModules == [] ==>
            step == Done(FollowExportsResult(asset, Some(exportName), NotFound)))
  {
    var e := graph[asset].esm;
    FindExportOutcome(graph, asset, exportName, expand);
    if SomeStarProvides(e.starExports, expand, exportName) {
      ExtendStarsLastWins(AllExportNames(LocalNames(e, asset), []), e.starExports, expand, exportName);
    }
  }

  /** A module without ESM exports ends the search as dynamic at once. */
  lemma NonEsmIsDynamic(graph: ModuleGraph, asset: Module, exportName: string, ignoreSideEffects: bool,
                        sideEffectFree: Module -> bool, expand: Module -> ExpandStarResult, fuel: nat)
    requires asset in graph && !graph[asset].Esm? && StepsStayInGraph(graph, sideEffectFree, expand) && fuel > 0
    ensures FollowReexports(graph, asset, exportName, ignoreSideEffects, sideEffectFree, expand, fuel)
         == Some(FollowExportsResult(asset, Some(exportName), Dynamic))
  {
  }
}
