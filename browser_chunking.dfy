/** The browser chunking context: the builder that sets its options one at
    a time, and what the context answers about its name, chunk paths, asset
    URLs and paths, source maps, entry chunk groups and export usage.
    Environments, runtime types, chunk types, chunking configurations,
    export-usage information and the chunk suffix cell are referred to by
    number. */
module BrowserChunking {
  import opened Wrappers
  import opened Text
  import opened FsPath
  import opened Chunking

  /** How a chunk finds its own URL at run time. */
  datatype CurrentChunkMethod = StringLiteral | DocumentCurrentScript

  /** `BrowserChunkingContext`, the value the builder produces. */
  datatype BrowserChunkingContext = BrowserChunkingContext(
    name: Option<string>,
    rootPath: FileSystemPath,
    shouldUseFileSourceMapUris: bool,
    outputRoot: FileSystemPath,
    outputRootToRootPath: string,
    clientRoot: FileSystemPath,
    clientRoots: map<string, FileSystemPath>,
    chunkRootPath: FileSystemPath,
    assetRootPath: FileSystemPath,
    assetRootPaths: map<string, FileSystemPath>,
    chunkBasePath: Option<string>,
    chunkSuffixPath: Option<nat>,
    assetBasePath: Option<string>,
    assetBasePaths: map<string, string>,
    enableHotModuleReplacement: bool,
    enableTracing: bool,
    enableModuleMerging: bool,
    enableDynamicChunkContentLoading: bool,
    debugIds: bool,
    environment: nat,
    runtimeType: nat,
    minifyType: MinifyType,
    contentHashing: Option<ContentHashing>,
    sourceMapsType: SourceMapsType,
    currentChunkMethod: CurrentChunkMethod,
    manifestChunks: bool,
    moduleIdStrategy: ModuleIdStrategy,
    exportUsage: Option<nat>,
    chunkingConfigs: seq<(nat, nat)>,
    shouldUseAbsoluteUrlReferences: bool)

  /** `BrowserChunkingContextBuilder`: each option method sets one field of
      the context it holds and leaves the others alone. */
  class BrowserChunkingContextBuilder {
    var context: BrowserChunkingContext

    /** `BrowserChunkingContext::builder`: the given paths, environment and
        runtime type; no name, no overrides, no base paths, every feature
        off, no minification, full source maps, no content hashing, the
        string-literal chunk method, the development module-id strategy and
        no export-usage information. */
    constructor (rootPath: FileSystemPath, outputRoot: FileSystemPath, outputRootToRootPath: string,
                 clientRoot: FileSystemPath, chunkRootPath: FileSystemPath, assetRootPath: FileSystemPath,
                 environment: nat, runtimeType: nat)
      ensures context.rootPath == rootPath && context.outputRoot == outputRoot
      ensures context.outputRootToRootPath == outputRootToRootPath && context.clientRoot == clientRoot
      ensures context.chunkRootPath == chunkRootPath && context.assetRootPath == assetRootPath
      ensures context.environment == environment && context.runtimeType == runtimeType
      ensures context.name.None? && context.clientRoots == map[] && context.assetRootPaths == map[]
      ensures context.assetBasePaths == map[] && context.chunkingConfigs == []
      ensures context.chunkBasePath.None? && context.chunkSuffixPath.None? && context.assetBasePath.None?
      ensures !context.shouldUseFileSourceMapUris && !context.enableHotModuleReplacement && !context.enableTracing
      ensures !context.enableModuleMerging && !context.enableDynamicChunkContentLoading && !context.debugIds
      ensures !context.manifestChunks && !context.shouldUseAbsoluteUrlReferences
      ensures context.minifyType == NoMinify && context.contentHashing.None? && context.sourceMapsType == Full
      ensures context.currentChunkMethod == StringLiteral && context.moduleIdStrategy == DevModuleIdStrategy
      ensures context.exportUsage.None?
      ensures ContextName(context) == "unknown"
      ensures ReferenceChunkSourceMaps(context) && ReferenceModuleSourceMaps(context)
    {
      context := BrowserChunkingContext(
        None, rootPath, false, outputRoot, outputRootToRootPath, clientRoot, map[], chunkRootPath,
        assetRootPath, map[], None, None, None, map[], false, false, false, false, false,
        environment, runtimeType, NoMinify, None, Full, StringLiteral, false, DevModuleIdStrategy,
        None, [], false);
    }

    method Name(name: string)
      modifies this
      ensures context == old(context).(name := Some(name))
      ensures ContextName(context) == name
    {
      context := context.(name := Some(name));
    }

    method HotModuleReplacement()
      modifies this
      ensures context == old(context).(enableHotModuleReplacement := true)
    {
      context := context.(enableHotModuleReplacement := true);
    }

    method UseFileSourceMapUris()
      modifies this
      ensures context == old(context).(shouldUseFileSourceMapUris := true)
    {
      context := context.(shouldUseFileSourceMapUris := true);
    }

    method Tracing(enableTracing: bool)
      modifies this
      ensures context == old(context).(enableTracing := enableTracing)
    {
      context := context.(enableTracing := enableTracing);
    }

    method ModuleMerging(enableModuleMerging: bool)
      modifies this
      ensures context == old(context).(enableModuleMerging := enableModuleMerging)
    {
      context := context.(enableModuleMerging := enableModuleMerging);
    }

    method DynamicChunkContentLoading(enable: bool)
      modifies this
      ensures context == old(context).(enableDynamicChunkContentLoading := enable)
    {
      context := context.(enableDynamicChunkContentLoading := enable);
    }

    method AssetBasePath(assetBasePath: Option<string>)
      modifies this
      ensures context == old(context).(assetBasePath := assetBasePath)
    {
      context := context.(assetBasePath := assetBasePath);
    }

    method ChunkBasePath(chunkBasePath: Option<string>)
      modifies this
      ensures context == old(context).(chunkBasePath := chunkBasePath)
    {
      context := context.(chunkBasePath := chunkBasePath);
    }

    method ChunkSuffixPath(cell: nat)
      modifies this
      ensures context == old(context).(chunkSuffixPath := Some(cell))
    {
      context := context.(chunkSuffixPath := Some(cell));
    }

    method RuntimeType(runtimeType: nat)
      modifies this
      ensures context == old(context).(runtimeType := runtimeType)
    {
      context := context.(runtimeType := runtimeType);
    }

    method ManifestChunks(manifestChunks: bool)
      modifies this
      ensures context == old(context).(manifestChunks := manifestChunks)
    {
      context := context.(manifestChunks := manifestChunks);
    }

    method SetMinifyType(minifyType: MinifyType)
      modifies this
      ensures context == old(context).(minifyType := minifyType)
    {
      context := context.(minifyType := minifyType);
    }

    /** `source_maps`: chunks and modules reference their source maps from
        now on exactly when the type is `Full`. */
    method SourceMaps(sourceMaps: SourceMapsType)
      modifies this
      ensures context == old(context).(sourceMapsType := sourceMaps)
      ensures ReferenceChunkSourceMaps(context) <==> sourceMaps == Full
    {
      context := context.(sourceMapsType := sourceMaps);
    }

    method SetCurrentChunkMethod(m: CurrentChunkMethod)
      modifies this
      ensures context == old(context).(currentChunkMethod := m)
    {
      context := context.(currentChunkMethod := m);
    }

    method SetModuleIdStrategy(strategy: ModuleIdStrategy)
      modifies this
      ensures context == old(context).(moduleIdStrategy := strategy)
    {
      context := context.(moduleIdStrategy := strategy);
    }

    method ExportUsage(exportUsage: Option<nat>)
      modifies this
      ensures context == old(context).(exportUsage := exportUsage)
    {
      context := context.(exportUsage := exportUsage);
    }

    method DebugIds(debugIds: bool)
      modifies this
      ensures context == old(context).(debugIds := debugIds)
    {
      context := context.(debugIds := debugIds);
    }

    method ShouldUseAbsoluteUrlReferences(b: bool)
      modifies this
      ensures context == old(context).(shouldUseAbsoluteUrlReferences := b)
    {
      context := context.(shouldUseAbsoluteUrlReferences := b);
    }

    /** `asset_root_path_override`: assets with this tag go to `path`; the
        root of every other tag stays. */
    method AssetRootPathOverride(tag: string, path: FileSystemPath)
      modifies this
      ensures context == old(context).(assetRootPaths := old(context).assetRootPaths[tag := path])
      ensures AssetRootFor(context, Some(tag)) == path
      ensures forall t :: t != tag ==> AssetRootFor(context, Some(t)) == AssetRootFor(old(context), Some(t))
    {
      context := context.(assetRootPaths := context.assetRootPaths[tag := path]);
    }

    /** `client_roots_override`: URLs of assets with this tag are taken
        relative to `path`. */
    method ClientRootsOverride(tag: string, path: FileSystemPath)
      modifies this
      ensures context == old(context).(clientRoots := old(context).clientRoots[tag := path])
      ensures ClientRootFor(context, Some(tag)) == path
      ensures forall t :: t != tag ==> ClientRootFor(context, Some(t)) == ClientRootFor(old(context), Some(t))
    {
      context := context.(clientRoots := context.clientRoots[tag := path]);
    }

    /** `asset_base_path_override`: URLs of assets with this tag start with
        `path`. */
    method AssetBasePathOverride(tag: string, path: string)
      modifies this
      ensures context == old(context).(assetBasePaths := old(context).assetBasePaths[tag := path])
      ensures AssetBaseFor(context, Some(tag)) == Some(path)
      ensures forall t :: t != tag ==> AssetBaseFor(context, Some(t)) == AssetBaseFor(old(context), Some(t))
    {
      context := context.(assetBasePaths := context.assetBasePaths[tag := path]);
    }

    /** `chunking_config`: appends the configuration for a chunk type. */
    method ChunkingConfig(chunkType: nat, config: nat)
      modifies this
      ensures context == old(context).(chunkingConfigs := old(context).chunkingConfigs + [(chunkType, config)])
    {
      context := context.(chunkingConfigs := context.chunkingConfigs + [(chunkType, config)]);
    }

    method UseContentHashing(contentHashing: ContentHashing)
      modifies this
      ensures context == old(context).(contentHashing := Some(contentHashing))
    {
      context := context.(contentHashing := Some(contentHashing));
    }

    /** `build`: the context as configured. */
    method Build() returns (c: BrowserChunkingContext)
      ensures c == context
    {
      c := context;
    }
  }

  // ---------------------------------------------------------------------------
  // What the context answers

  /** `name`: the configured name, "unknown" without one. */
  function ContextName(c: BrowserChunkingContext): (r: string)
    ensures c.name.Some? ==> r == c.name.value
    ensures c.name.None? ==> r == "unknown"
  {
    c.name.GetOr("unknown")
  }

  /** The client root for a tag: its override, else the default. */
  function ClientRootFor(c: BrowserChunkingContext, tag: Option<string>): (r: FileSystemPath)
    ensures tag.Some? && tag.value in c.clientRoots ==> r == c.clientRoots[tag.value]
    ensures tag.None? || tag.value !in c.clientRoots ==> r == c.clientRoot
  {
    if tag.Some? && tag.value in c.clientRoots then c.clientRoots[tag.value] else c.clientRoot
  }

  /** The URL base for a tag: its override, else the default, which may be
      missing. */
  function AssetBaseFor(c: BrowserChunkingContext, tag: Option<string>): (r: Option<string>)
    ensures tag.Some? && tag.value in c.assetBasePaths ==> r == Some(c.assetBasePaths[tag.value])
    ensures tag.None? || tag.value !in c.assetBasePaths ==> r == c.assetBasePath
  {
    if tag.Some? && tag.value in c.assetBasePaths then Some(c.assetBasePaths[tag.value]) else c.assetBasePath
  }

  /** The asset root for a tag: its override, else the default. */
  function AssetRootFor(c: BrowserChunkingContext, tag: Option<string>): (r: FileSystemPath)
    ensures tag.Some? && tag.value in c.assetRootPaths ==> r == c.assetRootPaths[tag.value]
    ensures tag.None? || tag.value !in c.assetRootPaths ==> r == c.assetRootPath
  {
    if tag.Some? && tag.value in c.assetRootPaths then c.assetRootPaths[tag.value] else c.assetRootPath
  }

  const AssetUrlError := "expected asset_path to contain client_root"

  /** `asset_url`: the asset's path below the tag's client root, behind the
      tag's base path ("/" without one); an error for a path outside that
      root. */
  function AssetUrl(c: BrowserChunkingContext, ident: FileSystemPath, tag: Option<string>): (r: Result<string>)
    ensures r.Ok? <==> StartsWith(ident.path, ClientRootFor(c, tag).path + "/")
    ensures r.Err? ==> r.msg == AssetUrlError
    ensures r.Ok? ==> StartsWith(r.value, BaseOrSlash(AssetBaseFor(c, tag)))
    ensures r.Ok? ==> ident.path == ClientRootFor(c, tag).path + "/" + r.value[|BaseOrSlash(AssetBaseFor(c, tag))|..]
  {
    AssetUrlFrom(ident.path, ClientRootFor(c, tag).path, AssetBaseFor(c, tag), AssetUrlError)
  }

  /** Every path below the tag's client root has the URL made of the base
      and the rest of the path. */
  lemma AssetUrlBelowClientRoot(c: BrowserChunkingContext, fs: nat, rest: string, tag: Option<string>)
    ensures AssetUrl(c, FileSystemPath(fs, ClientRootFor(c, tag).path + "/" + rest), tag)
      == Ok(BaseOrSlash(AssetBaseFor(c, tag)) + rest)
  {
    AssetUrlOfJoined(ClientRootFor(c, tag).path, rest, AssetBaseFor(c, tag), AssetUrlError);
  }

  /** `asset_path`: the hashed file name of the original asset under the
      tag's asset root. */
  function AssetPath(c: BrowserChunkingContext, contentHash: string, sourcePath: string, tag: Option<string>): (r: Result<FileSystemPath>)
    ensures |contentHash| < 8 ==> r.Err?
    ensures r.Ok? ==> r.value.fs == AssetRootFor(c, tag).fs && NormalizedPath(r.value.path)
  {
    AssetPathIn(AssetRootFor(c, tag), sourcePath, contentHash)
  }

  /** A static asset whose tag's asset root lies below its client root is
      placed there under its hashed name and served at the base followed
      by its path below the client root. */
  lemma AssetUrlOfAssetPath(c: BrowserChunkingContext, contentHash: string, sourcePath: string, tag: Option<string>, sub: string)
    requires AssetRootFor(c, tag).path == ClientRootFor(c, tag).path + "/" + sub
    requires NormalizedPath(AssetRootFor(c, tag).path)
    requires |contentHash| >= 8 && LowerHex(contentHash[..8])
    ensures var name := AssetFileName(sourcePath, contentHash).value;
      var placed := ClientRootFor(c, tag).path + "/" + sub + "/" + name;
      && AssetPath(c, contentHash, sourcePath, tag) == Ok(FileSystemPath(AssetRootFor(c, tag).fs, placed))
      && AssetUrl(c, FileSystemPath(AssetRootFor(c, tag).fs, placed), tag)
         == Ok(BaseOrSlash(AssetBaseFor(c, tag)) + sub + "/" + name)
  {
    Chunking.AssetUrlOfAssetPath(ClientRootFor(c, tag).path, sub, AssetRootFor(c, tag).fs, sourcePath,
                                 contentHash, AssetBaseFor(c, tag), AssetUrlError);
  }

  const NoAssetError := "chunk_path requires an asset when content hashing is enabled"
  const NoFileContentError := "chunk_path requires an asset with file content when content hashing is enabled"

  /** `chunk_path`: without content hashing the ident's output name (given
      here as `outputName`) under the chunk root; with content hashing the
      name made of the prefix and the hash of the asset's file content,
      which needs an asset with file content. */
  function ChunkPath(c: BrowserChunkingContext, asset: Option<AssetContent>, outputName: string,
                     prefix: Option<string>, extension: string): (r: Result<FileSystemPath>)
    ensures c.contentHashing.None? ==> r == JoinFsPath(c.chunkRootPath, outputName)
    ensures c.contentHashing.Some? && asset.None? ==> r == Err(NoAssetError)
    ensures c.contentHashing.Some? && asset.Some? && asset.value.Redirect? ==> r == Err(NoFileContentError)
    ensures r.Ok? ==> r.value.fs == c.chunkRootPath.fs && NormalizedPath(r.value.path)
  {
    match c.contentHashing
    case None => JoinFsPath(c.chunkRootPath, outputName)
    case Some(Direct(length)) =>
      match asset
      case None => Err(NoAssetError)
      case Some(Redirect) => Err(NoFileContentError)
      case Some(File(hash)) => JoinFsPath(c.chunkRootPath, ContentHashedName(prefix, hash, length, extension))
  }

  /** With content hashing a chunk goes directly in the chunk root, named by
      the prefix, the hash digits and the extension; the digits read back as
      the file's hash (a width of 16 or more also fixes their count for any
      64-bit hash: `HashDigitsWidth`). */
  lemma ContentHashedChunkPath(c: BrowserChunkingContext, hash: nat, outputName: string,
                               prefix: Option<string>, extension: string)
    requires c.contentHashing.Some? && NormalizedPath(c.chunkRootPath.path)
    requires prefix.Some? ==> '/' !in prefix.value
    requires '/' !in extension
    ensures var name := ContentHashedName(prefix, hash, c.contentHashing.value.length, extension);
      && ChunkPath(c, Some(File(hash)), outputName, prefix, extension)
         == Ok(FileSystemPath(c.chunkRootPath.fs, if c.chunkRootPath.path == "" then name else c.chunkRootPath.path + "/" + name))
      && HexValue(name[HashedNameStart(prefix)..|name| - |extension|]) == hash
  {
    var length := c.contentHashing.value.length;
    var name := ContentHashedName(prefix, hash, length, extension);
    assert ChunkPath(c, Some(File(hash)), outputName, prefix, extension) == JoinFsPath(c.chunkRootPath, name);
    ContentHashedNamePlain(prefix, hash, length, extension);
    JoinPlain(c.chunkRootPath.path, name);
    ContentHashedNameDigits(prefix, hash, length, extension);
  }

  /** `reference_chunk_source_maps`. */
  function ReferenceChunkSourceMaps(c: BrowserChunkingContext): (r: bool)
    ensures r <==> c.sourceMapsType == Full
  {
    ReferencesSourceMaps(c.sourceMapsType)
  }

  /** `reference_module_source_maps`. */
  function ReferenceModuleSourceMaps(c: BrowserChunkingContext): (r: bool)
    ensures r <==> c.sourceMapsType == Full
  {
    ReferencesSourceMaps(c.sourceMapsType)
  }

  /** `entry_chunk_group`: not supported by the browser context. */
  function EntryChunkGroup(c: BrowserChunkingContext): (r: Result<()>)
    ensures r.Err? && r.msg == "Browser chunking context does not support entry chunk groups"
  {
    Err("Browser chunking context does not support entry chunk groups")
  }

  /** `module_export_usage`: what the export-usage information reports, and
      every export without it. */
  function ModuleExportUsageOf(c: BrowserChunkingContext, moduleId: nat): (r: ModuleExportUsage)
    ensures c.exportUsage.None? ==> r == AllExports
    ensures c.exportUsage.Some? ==> r == Reported(c.exportUsage.value, moduleId)
  {
    match c.exportUsage
    case None => AllExports
    case Some(info) => Reported(info, moduleId)
  }
}
