/** The external-modules resolve plugin of the Next.js server: after a bare
    package request has been resolved, it decides whether the request is
    left to Node.js at run time (an external) instead of being bundled, and
    whether it is loaded with `require` or `import`. Node.js resolution, the
    nearest package.json, glob matching and the never-external pattern are
    functions given to the model; a resolved file is identified by its
    path. */
module NextServerResolve {
  import opened Wrappers
  import opened Text
  import FsPath
  import Resolve

  /** `ExternalPredicate`: every package except the listed ones (only for
      imports outside node_modules), or only the listed ones. */
  datatype ExternalPredicate = AllExcept(exceptions: seq<string>) | Only(externals: seq<string>)

  // ---------------------------------------------------------------------------
  // Package globs

  /** `PackagesGlobs`: the glob texts matching a file inside one of the
      packages, and a request for one of them. */
  datatype PackagesGlobs = PackagesGlobs(pathGlob: string, requestGlob: string)

  /** `packages_glob`: no globs for an empty list. */
  function PackagesGlob(packages: seq<string>): (r: Option<PackagesGlobs>)
    ensures r.None? <==> packages == []
  {
    if packages == [] then None
    else Some(PackagesGlobs(
      "**/node_modules/{" + Join(packages, ",") + "}/**",
      "{" + Join(packages, ",") + "," + Join(packages, "/**,") + "/**}"))
  }

  /** Each package followed by the any-sub-path wildcard. */
  function WithSubpaths(packages: seq<string>): (r: seq<string>)
    ensures |r| == |packages|
    ensures forall i :: 0 <= i < |r| ==> r[i] == packages[i] + "/**"
  {
    if packages == [] then [] else [packages[0] + "/**"] + WithSubpaths(packages[1..])
  }

  lemma {:induction false} JoinConcat(a: seq<string>, b: seq<string>, sep: string)
    requires a != [] && b != []
    ensures Join(a + b, sep) == Join(a, sep) + sep + Join(b, sep)
    decreases |a|
  {
    if |a| == 1 {
      assert (a + b)[1..] == b;
    } else {
      JoinConcat(a[1..], b, sep);
      assert (a + b)[1..] == a[1..] + b;
    }
  }

  lemma {:induction false} JoinSubpaths(packages: seq<string>)
    requires packages != []
    ensures Join(packages, "/**,") + "/**" == Join(WithSubpaths(packages), ",")
    decreases |packages|
  {
    var w := WithSubpaths(packages);
    if |packages| > 1 {
      JoinSubpaths(packages[1..]);
      assert w[1..] == WithSubpaths(packages[1..]);
      var p := packages[0];
      var rest := Join(packages[1..], "/**,");
      assert Join(packages, "/**,") + "/**" == (p + "/**") + "," + (rest + "/**");
    }
  }

  /** The request glob is one alternation of every package and every package
      followed by a sub-path; the path glob one alternation of the packages
      under any node_modules directory. */
  lemma PackagesGlobAlternatives(packages: seq<string>)
    requires packages != []
    ensures PackagesGlob(packages).value.requestGlob == "{" + Join(packages + WithSubpaths(packages), ",") + "}"
    ensures PackagesGlob(packages).value.pathGlob == "**/node_modules/{" + Join(packages, ",") + "}/**"
  {
    JoinSubpaths(packages);
    JoinConcat(packages, WithSubpaths(packages), ",");
  }

  /** The globs of a single package: the package or any of its sub-paths,
      and any path inside a node_modules directory of that name. */
  lemma SinglePackageGlobs(p: string)
    ensures PackagesGlob([p]) == Some(PackagesGlobs("**/node_modules/{" + p + "}/**", "{" + p + "," + p + "/**}"))
  {
  }

  // ---------------------------------------------------------------------------
  // What the plugin is given

  /** A package.json looked up from a directory upwards: not found, not valid
      JSON, or its "name", "version" and "type" strings. */
  datatype PackageJson =
    | NotFound
    | Unparsable
    | Content(name: Option<string>, version: Option<string>, moduleType: Option<string>)

  /** The environment of one call of `after_resolve`:
      - `neverExternal`: the never-external request pattern;
      - `globMatches(glob, text)`: glob matching;
      - `lookupInNodeModules`: the lookup path lies under a node_modules
        directory of the root;
      - `fsPath`: the path Next.js resolved the request to;
      - `importExternals` and `esmReference`: externals may be imported, and
        the reference is an ESM import;
      - `resolveFromImporter(esm, request)` and `resolveFromProject(esm,
        request)`: the path of the first file Node.js resolves the request
        to, with ESM or CommonJS options, from the importing module or from
        the project directory;
      - `packageJsonOf(path)`: the package.json nearest to a file. */
  datatype Env = Env(
    neverExternal: string -> bool,
    globMatches: (string, string) -> bool,
    lookupInNodeModules: bool,
    fsPath: string,
    importExternals: bool,
    esmReference: bool,
    resolveFromImporter: (bool, string) -> Option<string>,
    resolveFromProject: (bool, string) -> Option<string>,
    packageJsonOf: string -> PackageJson)

  /** A bare request: package and sub-path, each a constant text or not. */
  datatype RequestPart = Constant(text: string) | NonConstant
  datatype Request = ModuleRequest(package: RequestPart, subpath: RequestPart) | OtherRequest

  // ---------------------------------------------------------------------------
  // Issues

  datatype Side = ProjectDirectory | ImportingModule
  datatype PackageJsonProblem = Missing | NotParsable | NoNameOrVersion

  /** Why a request is bundled after all. */
  datatype Reason =
    | NotResolvableFromImporter
    | NotResolvableFromProject(package: string)
    | PackageJsonReason(problem: PackageJsonProblem, side: Side)
    | DifferentVersion(projectVersion: string, importerVersion: string)
    | UnsupportedFileExtension
    | InvalidPackageJson
    | RequireResolvesToEsm

  /** `ExternalizeIssue`, with the request as written (before any ".js"). */
  datatype ExternalizeIssue = ExternalizeIssue(package: string, requestStr: string, reason: Reason)

  const OfThePackage := "The package.json of the package"
  const ProjectDirectoryText := "project directory"
  const ResolvedFromProject := " resolved from " + ProjectDirectoryText
  const ResolvedFromTheProject := " resolved from the " + ProjectDirectoryText
  const CantBeFound := " can't be found."
  const CantBeParsed := " can't be parsed."
  const HasNoNameOrVersion := " has no name or version."

  /** The message of a package.json problem, as the source words it: the two
      "no name or version" texts are attached to the opposite sides. */
  function PackageJsonMessageAsWritten(problem: PackageJsonProblem, side: Side): string {
    match (problem, side)
    case (Missing, ProjectDirectory) => OfThePackage + ResolvedFromTheProject + CantBeFound
    case (Missing, ImportingModule) => OfThePackage + CantBeFound
    case (NotParsable, ProjectDirectory) => OfThePackage + ResolvedFromProject + CantBeParsed
    case (NotParsable, ImportingModule) => OfThePackage + CantBeParsed
    case (NoNameOrVersion, ProjectDirectory) => OfThePackage + HasNoNameOrVersion
    case (NoNameOrVersion, ImportingModule) => OfThePackage + ResolvedFromProject + HasNoNameOrVersion
  }

  /** The message of a package.json problem, naming the project directory
      for the package resolved from there. */
  function PackageJsonMessage(problem: PackageJsonProblem, side: Side): string {
    match (problem, side)
    case (NoNameOrVersion, ProjectDirectory) => OfThePackage + ResolvedFromProject + HasNoNameOrVersion
    case (NoNameOrVersion, ImportingModule) => OfThePackage + HasNoNameOrVersion
    case _ => PackageJsonMessageAsWritten(problem, side)
  }

  predicate NamesProjectDirectory(message: string) {
    Contains(message, ProjectDirectoryText)
  }

  lemma Named(before: string, after: string)
    ensures NamesProjectDirectory(before + ProjectDirectoryText + after)
  {
    assert OccursAt(before + ProjectDirectoryText + after, ProjectDirectoryText, |before|);
  }

  /** A text without a 'y' cannot contain "project directory". */
  lemma Unnamed(before: string, after: string)
    requires 'y' !in before && 'y' !in after
    ensures !NamesProjectDirectory(before + after)
  {
    var s := before + after;
    forall i: nat | i <= |s| ensures !OccursAt(s, ProjectDirectoryText, i) {
      if i + |ProjectDirectoryText| <= |s| {
        assert s[i..i + |ProjectDirectoryText|][16] == s[i + 16] != 'y';
      }
    }
  }

  lemma NoY()
    ensures 'y' !in OfThePackage && 'y' !in CantBeFound && 'y' !in CantBeParsed && 'y' !in HasNoNameOrVersion
  {
  }

  /** As written, the "no name or version" message about the package
      resolved from the project directory does not name the project
      directory, and the one about the importing module's package does. */
  lemma NoNameOrVersionMessagesSwapped()
    ensures !NamesProjectDirectory(PackageJsonMessageAsWritten(NoNameOrVersion, ProjectDirectory))
    ensures NamesProjectDirectory(PackageJsonMessageAsWritten(NoNameOrVersion, ImportingModule))
  {
    NoY();
    Unnamed(OfThePackage, HasNoNameOrVersion);
    Named(OfThePackage + " resolved from ", HasNoNameOrVersion);
    assert OfThePackage + ResolvedFromProject + HasNoNameOrVersion
        == OfThePackage + " resolved from " + ProjectDirectoryText + HasNoNameOrVersion;
  }

  /** Every package.json message names the project directory exactly when
      the package.json at fault is the one resolved from there. */
  lemma MessageNamesFaultySide(problem: PackageJsonProblem, side: Side)
    ensures NamesProjectDirectory(PackageJsonMessage(problem, side)) <==> side == ProjectDirectory
  {
    NoY();
    var tail := match problem case Missing => CantBeFound case NotParsable => CantBeParsed case NoNameOrVersion => HasNoNameOrVersion;
    if side == ProjectDirectory {
      var lead := if problem == Missing then " resolved from the " else " resolved from ";
      assert PackageJsonMessage(problem, side) == OfThePackage + lead + ProjectDirectoryText + tail;
      Named(OfThePackage + lead, tail);
    } else {
      assert PackageJsonMessage(problem, side) == OfThePackage + tail;
      Unnamed(OfThePackage, tail);
    }
  }

  // ---------------------------------------------------------------------------
  // Which requests may be external

  /** The packages' globs match the resolved path or the request. */
  predicate MatchesPackages(env: Env, packages: seq<string>, requestStr: string) {
    match PackagesGlob(packages)
    case None => false
    case Some(g) => env.globMatches(g.pathGlob, env.fsPath) || env.globMatches(g.requestGlob, requestStr)
  }

  /** `must_be_external`, or None when the predicate leaves the request to
      the bundler: with `AllExcept`, a lookup inside node_modules or a listed
      package is bundled and the others may be external; with `Only`, the
      listed packages must be external and the others are bundled. */
  function MustBeExternal(env: Env, selection: ExternalPredicate, requestStr: string): (r: Option<bool>)
    ensures r == Some(false) <==>
      selection.AllExcept? && !env.lookupInNodeModules && !MatchesPackages(env, selection.exceptions, requestStr)
    ensures r == Some(true) <==> selection.Only? && MatchesPackages(env, selection.externals, requestStr)
  {
    match selection
    case AllExcept(exceptions) =>
      if env.lookupInNodeModules then None
      else if MatchesPackages(env, exceptions, requestStr) then None
      else Some(false)
    case Only(externals) =>
      if MatchesPackages(env, externals, requestStr) then Some(true) else None
  }

  /** The ".js" fallback applies: an ESM import of a sub-path that does not
      already end with ".js". */
  predicate JsFallback(isEsm: bool, subpath: string, request: string) {
    isEsm && subpath != "" && subpath != "/" && !EndsWith(request, ".js")
  }

  lemma AppendedJs(request: string)
    ensures EndsWith(request + ".js", ".js")
  {
    assert (request + ".js")[|request|..] == ".js";
  }

  /** The request Node.js resolves from the importing module, with the file
      it finds: the request itself, or else, when the fallback applies, the
      request with ".js" appended. */
  function FromImporter(env: Env, isEsm: bool, subpath: string, request: string): (r: Option<(string, string)>)
    ensures r.Some? && r.value.0 == request ==> env.resolveFromImporter(isEsm, request) == Some(r.value.1)
    ensures r.Some? && r.value.0 != request ==>
      && r.value.0 == request + ".js"
      && env.resolveFromImporter(isEsm, request).None?
      && JsFallback(isEsm, subpath, request)
      && env.resolveFromImporter(isEsm, request + ".js") == Some(r.value.1)
    ensures r.None? <==>
      && env.resolveFromImporter(isEsm, request).None?
      && (JsFallback(isEsm, subpath, request) ==> env.resolveFromImporter(isEsm, request + ".js").None?)
    decreases if EndsWith(request, ".js") then 0 else 1
  {
    match env.resolveFromImporter(isEsm, request)
    case Some(path) => Some((request, path))
    case None =>
      if JsFallback(isEsm, subpath, request) then
        AppendedJs(request);
        FromImporter(env, isEsm, subpath, request + ".js")
      else None
  }

  /** The resolve loop of `after_resolve`: ".js" is appended at most once,
      since the longer request ends with ".js". */
  method ResolveFromImporter(env: Env, isEsm: bool, subpath: string, requestStr: string)
    returns (r: Option<(string, string)>)
    ensures r == FromImporter(env, isEsm, subpath, requestStr)
  {
    var request := requestStr;
    while true
      invariant FromImporter(env, isEsm, subpath, request) == FromImporter(env, isEsm, subpath, requestStr)
      decreases if EndsWith(request, ".js") then 0 else 1
    {
      var found := env.resolveFromImporter(isEsm, request);
      if found.Some? {
        return Some((request, found.value));
      }
      if JsFallback(isEsm, subpath, request) {
        AppendedJs(request);
        request := request + ".js";
      } else {
        return None;
      }
    }
  }

  // ---------------------------------------------------------------------------
  // Package identity and file type

  /** The checks made when the project directory resolves to another file
      than the importing module: both package.json files must exist and
      parse, carry a name and a version, and agree on both. None when they
      do. */
  function ComparePackages(project: PackageJson, importer: PackageJson): (r: Option<Reason>)
    ensures r.None? <==>
      && project.Content? && importer.Content?
      && project.name.Some? && project.version.Some?
      && project.name == importer.name && project.version == importer.version
    ensures r.Some? && r.value.PackageJsonReason? && r.value.side == ImportingModule ==> !project.NotFound?
    ensures r.Some? && r.value.DifferentVersion? ==>
      project.Content? && importer.Content? && project.version.Some? && r.value.projectVersion == project.version.value
  {
    if project.NotFound? then Some(PackageJsonReason(Missing, ProjectDirectory))
    else if importer.NotFound? then Some(PackageJsonReason(Missing, ImportingModule))
    else if project.Unparsable? then Some(PackageJsonReason(NotParsable, ProjectDirectory))
    else if importer.Unparsable? then Some(PackageJsonReason(NotParsable, ImportingModule))
    else if project.name.None? || project.version.None? then Some(PackageJsonReason(NoNameOrVersion, ProjectDirectory))
    else if importer.name.None? || importer.version.None? then Some(PackageJsonReason(NoNameOrVersion, ImportingModule))
    else if (project.name, project.version) != (importer.name, importer.version) then
      Some(DifferentVersion(project.version.value, importer.version.value))
    else None
  }

  datatype FileType = CommonJsFile | EsmFile | UnsupportedExtension | InvalidPackageJsonFile

  /** `get_file_type`: ".cjs", ".node" and ".json" files are CommonJS, ".mjs"
      files ESM, and a ".js" file is ESM when its package.json has type
      "module", CommonJS when it has another type or no package.json is
      found, and invalid when the package.json does not parse; Node.js loads
      no other extension. */
  function GetFileType(path: string, packageJson: PackageJson): (r: FileType)
    ensures var ext := FsPath.ExtensionRef(path);
      r == UnsupportedExtension <==> ext !in {Some("cjs"), Some("node"), Some("json"), Some("mjs"), Some("js")}
    ensures var ext := FsPath.ExtensionRef(path);
      r == EsmFile <==> ext == Some("mjs") || (ext == Some("js") && packageJson.Content? && packageJson.moduleType == Some("module"))
    ensures r == InvalidPackageJsonFile <==> FsPath.ExtensionRef(path) == Some("js") && packageJson.Unparsable?
  {
    match FsPath.ExtensionRef(path)
    case Some(ext) =>
      if ext == "cjs" || ext == "node" || ext == "json" then CommonJsFile
      else if ext == "mjs" then EsmFile
      else if ext == "js" then
        match packageJson
        case NotFound => CommonJsFile
        case Unparsable => InvalidPackageJsonFile
        case Content(_, _, moduleType) => if moduleType == Some("module") then EsmFile else CommonJsFile
      else UnsupportedExtension
    case None => UnsupportedExtension
  }

  /** What becomes of a resolved request. */
  datatype Decision = Externalize(ty: Resolve.ExternalType) | Bundle | Unable(reason: Reason)

  /** The external type of a file: CommonJS files are `require`d, except
      that an ESM import of one is imported as ESM unless CommonJS resolution
      finds the same file, and is quietly bundled when the package was not
      listed; ESM files are imported, and cannot be `require`d. */
  function ExternalTypeFor(fileType: FileType, isEsm: bool, mustBeExternal: bool, resolvesEqual: bool): (d: Decision)
    ensures d == Externalize(Resolve.CommonJs) <==> fileType == CommonJsFile && (!isEsm || resolvesEqual)
    ensures d == Externalize(Resolve.EcmaScriptModule) <==>
      || (fileType == EsmFile && isEsm)
      || (fileType == CommonJsFile && isEsm && mustBeExternal && !resolvesEqual)
    ensures d == Bundle <==> fileType == CommonJsFile && isEsm && !mustBeExternal && !resolvesEqual
    ensures d == Unable(UnsupportedFileExtension) <==> fileType == UnsupportedExtension
    ensures d == Unable(InvalidPackageJson) <==> fileType == InvalidPackageJsonFile
    ensures d == Unable(RequireResolvesToEsm) <==> fileType == EsmFile && !isEsm
  {
    match (fileType, isEsm)
    case (UnsupportedExtension, _) => Unable(UnsupportedFileExtension)
    case (InvalidPackageJsonFile, _) => Unable(InvalidPackageJson)
    case (CommonJsFile, false) => Externalize(Resolve.CommonJs)
    case (CommonJsFile, true) =>
      if !mustBeExternal && !resolvesEqual then Bundle
      else if resolvesEqual then Externalize(Resolve.CommonJs)
      else Externalize(Resolve.EcmaScriptModule)
    case (EsmFile, true) => Externalize(Resolve.EcmaScriptModule)
    case (EsmFile, false) => Unable(RequireResolvesToEsm)
  }

  // ---------------------------------------------------------------------------
  // after_resolve

  /** `ResolveResultItem::External`, always traced. */
  datatype External = External(name: string, ty: Resolve.ExternalType)

  /** The result of `after_resolve` and the issue it emits. */
  datatype Outcome = Outcome(result: Option<External>, issue: Option<ExternalizeIssue>)

  const Bundled := Outcome(None, None)

  /** `unable_to_externalize`: no result, and an issue only when the package
      must be external. */
  function UnableToExternalize(mustBeExternal: bool, package: string, requestStr: string, reason: Reason): (o: Outcome)
    ensures o.result.None?
    ensures o.issue.Some? <==> mustBeExternal
    ensures o.issue.Some? ==> o.issue.value == ExternalizeIssue(package, requestStr, reason)
  {
    Outcome(None, if mustBeExternal then Some(ExternalizeIssue(package, requestStr, reason)) else None)
  }

  /** The decision once Node.js has found `path` from the project directory
      for `request`, and `original` from the importing module. */
  function Classify(env: Env, isEsm: bool, mustBeExternal: bool, request: string, original: string, path: string): Decision {
    var mismatch := if original != path then ComparePackages(env.packageJsonOf(path), env.packageJsonOf(original)) else None;
    if mismatch.Some? then Unable(mismatch.value)
    else
      var resolvesEqual := env.resolveFromProject(false, request) == Some(path);
      ExternalTypeFor(GetFileType(path, env.packageJsonOf(path)), isEsm, mustBeExternal, resolvesEqual)
  }

  /** `after_resolve` for a constant bare request `package` + `subpath`. */
  function AfterResolveModule(env: Env, selection: ExternalPredicate, package: string, subpath: string): Outcome {
    var requestStr := package + subpath;
    if env.neverExternal(requestStr) then Bundled
    else match MustBeExternal(env, selection, requestStr)
    case None => Bundled
    case Some(mustBeExternal) =>
      var isEsm := env.importExternals && env.esmReference;
      match FromImporter(env, isEsm, subpath, requestStr)
      case None => UnableToExternalize(mustBeExternal, package, requestStr, NotResolvableFromImporter)
      case Some((request, original)) =>
        match env.resolveFromProject(isEsm, request)
        case None => UnableToExternalize(mustBeExternal, package, requestStr, NotResolvableFromProject(package))
        case Some(path) =>
          match Classify(env, isEsm, mustBeExternal, request, original, path)
          case Bundle => Bundled
          case Unable(reason) => UnableToExternalize(mustBeExternal, package, requestStr, reason)
          case Externalize(ty) => Outcome(Some(External(request, ty)), None)
  }

  /** `after_resolve`: only bare requests with a constant package and
      sub-path are considered. */
  function AfterResolve(env: Env, selection: ExternalPredicate, request: Request): Outcome {
    match request
    case ModuleRequest(Constant(package), Constant(subpath)) => AfterResolveModule(env, selection, package, subpath)
    case _ => Bundled
  }

  // ---------------------------------------------------------------------------
  // Properties of after_resolve

  /** Requests that are not constant bare requests, and requests matching
      the never-external pattern, are left alone. */
  lemma LeftAlone(env: Env, selection: ExternalPredicate, request: Request)
    ensures !(request.ModuleRequest? && request.package.Constant? && request.subpath.Constant?) ==>
      AfterResolve(env, selection, request) == Bundled
    ensures
      && request.ModuleRequest? && request.package.Constant? && request.subpath.Constant?
      && env.neverExternal(request.package.text + request.subpath.text)
      ==> AfterResolve(env, selection, request) == Bundled
  {
  }

  /** With `AllExcept`, a lookup inside node_modules and a listed package are
      bundled without an issue; with `Only`, so is an unlisted package, and
      every package with an empty list. */
  lemma PredicateExclusions(env: Env, selection: ExternalPredicate, package: string, subpath: string)
    ensures selection.AllExcept? && env.lookupInNodeModules ==> AfterResolveModule(env, selection, package, subpath) == Bundled
    ensures selection.AllExcept? && MatchesPackages(env, selection.exceptions, package + subpath) ==>
      AfterResolveModule(env, selection, package, subpath) == Bundled
    ensures selection.Only? && !MatchesPackages(env, selection.externals, package + subpath) ==>
      AfterResolveModule(env, selection, package, subpath) == Bundled
    ensures selection == Only([]) ==> AfterResolveModule(env, selection, package, subpath) == Bundled
  {
  }

  /** An issue is emitted only for a package that must be external (one
      listed under `Only`), never together with a result, and names the
      request as written. */
  lemma IssueOnlyWhenMustBeExternal(env: Env, selection: ExternalPredicate, package: string, subpath: string)
    ensures var o := AfterResolveModule(env, selection, package, subpath);
      o.issue.Some? ==>
        && selection.Only? && MatchesPackages(env, selection.externals, package + subpath)
        && o.result.None?
        && o.issue.value.package == package && o.issue.value.requestStr == package + subpath
  {
  }

  /** An external is the request, or the request with ".js" appended when
      the fallback applied; the predicate allowed it, and Node.js resolves
      it from the project directory. */
  lemma ExternalIsResolvable(env: Env, selection: ExternalPredicate, package: string, subpath: string)
    ensures var o := AfterResolveModule(env, selection, package, subpath);
      var requestStr := package + subpath;
      var isEsm := env.importExternals && env.esmReference;
      o.result.Some? ==>
        && o.issue.None?
        && !env.neverExternal(requestStr)
        && MustBeExternal(env, selection, requestStr).Some?
        && (o.result.value.name == requestStr || (o.result.value.name == requestStr + ".js" && JsFallback(isEsm, subpath, requestStr)))
        && env.resolveFromProject(isEsm, o.result.value.name).Some?
  {
  }

  /** A CommonJS file imported as ESM whose CommonJS resolution differs is
      bundled without an issue when the package was not listed. */
  lemma EsmImportOfCommonJsBundled(env: Env, package: string, subpath: string, exceptions: seq<string>, path: string)
    requires env.importExternals && env.esmReference
    requires !env.neverExternal(package + subpath)
    requires MustBeExternal(env, AllExcept(exceptions), package + subpath) == Some(false)
    requires env.resolveFromImporter(true, package + subpath) == Some(path)
    requires env.resolveFromProject(true, package + subpath) == Some(path)
    requires GetFileType(path, env.packageJsonOf(path)) == CommonJsFile
    requires env.resolveFromProject(false, package + subpath) != Some(path)
    ensures AfterResolveModule(env, AllExcept(exceptions), package, subpath) == Bundled
  {
  }
}
