/** Helpers of next-core: compile-time defines from the environment, page
    pathnames, asset paths, function names and the runtime's conditions. */
module NextUtil {
  import opened Wrappers
  import opened Text
  import opened FsPath

  // ---------------------------------------------------------------------------
  // Defines

  /** A JSON value, as produced by a JSON parser. */
  datatype JsonValue =
    | JsonNull
    | JsonBool(b: bool)
    | JsonNumber(n: int)
    | JsonString(s: string)
    | JsonArray(items: seq<JsonValue>)
    | JsonObject(fields: seq<(string, JsonValue)>)

  /** The value a name is replaced with at compile time. */
  datatype DefineValue = Undefined | Evaluate(code: string) | Json(value: JsonValue)

  /** The value of one environment entry: `None` is undefined, text that
      parses as JSON is that JSON, anything else is evaluated as code. The
      parser is given. */
  function DefineValueOf(v: Option<string>, parseJson: string -> Option<JsonValue>): (r: DefineValue)
    ensures v.None? <==> r.Undefined?
    ensures r.Evaluate? ==> v == Some(r.code) && parseJson(r.code).None?
    ensures r.Json? ==> v.Some? && parseJson(v.value) == Some(r.value)
  {
    match v
    case None => Undefined
    case Some(text) =>
      match parseJson(text)
      case Some(j) => Json(j)
      case None => Evaluate(text)
  }

  /** The name segments of a defined key such as "process.env.X". */
  function NameSegments(key: string): (r: seq<string>)
    ensures Join(r, ".") == key
  {
    Split(key, '.')
  }

  /** The defines as an insertion-ordered map: keys in first-insertion order
      and their values. */
  datatype Defines = Defines(keys: seq<seq<string>>, values: map<seq<string>, DefineValue>)

  ghost predicate WellFormedDefines(d: Defines) {
    && (forall i :: 0 <= i < |d.keys| ==> d.keys[i] in d.values)
    && (forall k :: k in d.values ==> k in d.keys)
    && (forall i, j :: 0 <= i < j < |d.keys| ==> d.keys[i] != d.keys[j])
  }

  /** The entry (`entry().or_insert_with()`) of one environment variable. */
  function InsertFirst(d: Defines, key: seq<string>, value: DefineValue): (r: Defines)
    requires WellFormedDefines(d)
    ensures WellFormedDefines(r)
    ensures key in d.values ==> r == d
    ensures key !in d.values ==> r.keys == d.keys + [key] && r.values == d.values[key := value]
  {
    if key in d.values then d else Defines(d.keys + [key], d.values[key := value])
  }

  /** The defines of the first `n` environment entries. */
  function DefinesOf(env: seq<(string, Option<string>)>, parseJson: string -> Option<JsonValue>): (r: Defines)
    ensures WellFormedDefines(r)
  {
    if env == [] then Defines([], map[])
    else
      var last := env[|env| - 1];
      InsertFirst(DefinesOf(env[..|env| - 1], parseJson), NameSegments(last.0), DefineValueOf(last.1, parseJson))
  }

  /** `defines`. */
  method ComputeDefines(env: seq<(string, Option<string>)>, parseJson: string -> Option<JsonValue>) returns (r: Defines)
    ensures r == DefinesOf(env, parseJson)
  {
    r := Defines([], map[]);
    var i := 0;
    while i < |env|
      invariant i <= |env|
      invariant r == DefinesOf(env[..i], parseJson)
    {
      assert env[..i + 1][..i] == env[..i];
      var (k, v) := env[i];
      var segments := NameSegments(k);
      if segments !in r.values {
        r := Defines(r.keys + [segments], r.values[segments := DefineValueOf(v, parseJson)]);
      }
      i := i + 1;
    }
    assert env[..|env|] == env;
  }

  /** Every key of the environment is defined, with the value of its first
      entry. */
  lemma {:induction false} DefinesFirstWins(env: seq<(string, Option<string>)>, parseJson: string -> Option<JsonValue>, i: nat)
    requires i < |env|
    requires forall j :: 0 <= j < i ==> env[j].0 != env[i].0
    ensures NameSegments(env[i].0) in DefinesOf(env, parseJson).values
    ensures DefinesOf(env, parseJson).values[NameSegments(env[i].0)] == DefineValueOf(env[i].1, parseJson)
    decreases |env|
  {
    var init := env[..|env| - 1];
    if i < |env| - 1 {
      DefinesFirstWins(init, parseJson, i);
    } else {
      var key := NameSegments(env[i].0);
      if key in DefinesOf(init, parseJson).values {
        var j := DefinedKeyFrom(init, parseJson, key);
      }
    }
  }

  /** Every defined key comes from an entry of the environment. */
  lemma {:induction false} DefinedKeyFrom(env: seq<(string, Option<string>)>, parseJson: string -> Option<JsonValue>, key: seq<string>)
    returns (j: nat)
    requires key in DefinesOf(env, parseJson).values
    ensures j < |env| && NameSegments(env[j].0) == key
    decreases |env|
  {
    var init := env[..|env| - 1];
    if key in DefinesOf(init, parseJson).values {
      j := DefinedKeyFrom(init, parseJson, key);
      assert env[j] == init[j];
    } else {
      j := |env| - 1;
    }
  }

  /** Distinct keys have distinct name segments. */
  lemma NameSegmentsInjective(a: string, b: string)
    ensures NameSegments(a) == NameSegments(b) <==> a == b
  {
    if NameSegments(a) == NameSegments(b) {
      assert Join(NameSegments(a), ".") == Join(NameSegments(b), ".");
    }
  }

  // ---------------------------------------------------------------------------
  // Pathnames

  datatype PathType = PagesPage | PagesApi | Data

  /** `pathname_for_path`: the next pathname of a file under the server root. */
  function PathnameForPath(serverRoot: FileSystemPath, serverPath: FileSystemPath, pathType: PathType): (r: Result<string>)
    ensures r.Err? <==> GetPathTo(serverRoot, serverPath).None?
    ensures r.Ok? ==> StartsWith(r.value, "/")
  {
    match GetPathTo(serverRoot, serverPath)
    case None => Err("server_path is not in server_root")
    case Some(path) =>
      if pathType == Data && path == "" then Ok("/index")
      else Ok("/" + path)
  }

  /** A path below the root maps to "/" followed by its relative path; the
      root itself is "/index" for data routes and "/" otherwise. */
  lemma PathnameForPathJoined(serverRoot: FileSystemPath, rel: string, pathType: PathType)
    requires serverRoot.path != ""
    ensures PathnameForPath(serverRoot, FileSystemPath(serverRoot.fs, serverRoot.path + "/" + rel), pathType)
      == Ok(if pathType == Data && rel == "" then "/index" else "/" + rel)
  {
    GetPathToJoined(serverRoot, rel);
  }

  /** `get_asset_prefix_from_pathname`. */
  function AssetPrefixFromPathname(pathname: string): (r: string)
    ensures pathname == "/" ==> r == "/index"
    ensures pathname == "/index" || StartsWith(pathname, "/index/") ==> r == "/index" + pathname
    ensures pathname != "/" && pathname != "/index" && !StartsWith(pathname, "/index/") ==> r == pathname
  {
    if pathname == "/" then "/index"
    else if pathname == "/index" || StartsWith(pathname, "/index/") then "/index" + pathname
    else pathname
  }

  /** Distinct pathnames get distinct asset prefixes. */
  lemma AssetPrefixInjective(a: string, b: string)
    requires AssetPrefixFromPathname(a) == AssetPrefixFromPathname(b)
    ensures a == b
  {
    var ra, rb := AssetPrefixFromPathname(a), AssetPrefixFromPathname(b);
    if (a == "/index" || StartsWith(a, "/index/")) && (b == "/index" || StartsWith(b, "/index/")) {
      assert a == ra[6..] && b == rb[6..];
    }
  }

  /** `get_asset_path_from_pathname`: the asset prefix followed by the extension. */
  function AssetPathFromPathname(pathname: string, ext: string): (r: string)
    ensures StartsWith(r, AssetPrefixFromPathname(pathname)) && EndsWith(r, ext)
    ensures |r| == |AssetPrefixFromPathname(pathname)| + |ext|
  {
    AssetPrefixFromPathname(pathname) + ext
  }

  lemma AssetPathExamples()
    ensures AssetPathFromPathname("/", ".js") == "/index.js"
    ensures AssetPathFromPathname("/index", ".js") == "/index/index.js"
    ensures AssetPathFromPathname("/index/about", ".js") == "/index/index/about.js"
    ensures AssetPathFromPathname("/about", ".js") == "/about.js"
  {
    assert StartsWith("/index/about", "/index/");
    assert !StartsWith("/about", "/index/") by {
      assert "/about"[1] != "/index/"[1];
    }
  }

  /** `app_function_name`. */
  function AppFunctionName(page: string): (r: string)
    ensures StartsWith(r, "app") && r[3..] == page
  {
    "app" + page
  }

  /** `pages_function_name`. */
  function PagesFunctionName(page: string): (r: string)
    ensures StartsWith(r, "pages") && r[5..] == page
  {
    "pages" + page
  }

  /** App and pages function names never collide. */
  lemma FunctionNamesDistinct(a: string, b: string)
    ensures AppFunctionName(a) != PagesFunctionName(b)
  {
    assert AppFunctionName(a)[0] != PagesFunctionName(b)[0];
  }

  // ---------------------------------------------------------------------------
  // Runtime

  datatype NextRuntime = NodeJs | Edge

  const DefaultRuntime: NextRuntime := NodeJs

  /** The two builtin loader conditions a runtime selects. */
  datatype WebpackLoaderBuiltinCondition = Node | EdgeLight

  function WebpackLoaderConditions(rt: NextRuntime): (r: seq<WebpackLoaderBuiltinCondition>)
    ensures |r| == 1
  {
    match rt
    case NodeJs => [Node]
    case Edge => [EdgeLight]
  }

  function CustomResolveConditions(rt: NextRuntime): (r: seq<string>)
    ensures |r| == 1
  {
    match rt
    case NodeJs => ["node"]
    case Edge => ["edge-light"]
  }

  /** Each runtime has its own loader and resolve condition. */
  lemma RuntimeConditionsDistinct(a: NextRuntime, b: NextRuntime)
    ensures WebpackLoaderConditions(a) == WebpackLoaderConditions(b) <==> a == b
    ensures CustomResolveConditions(a) == CustomResolveConditions(b) <==> a == b
  {
    if a != b {
      assert CustomResolveConditions(a)[0] != CustomResolveConditions(b)[0];
    }
  }
}
