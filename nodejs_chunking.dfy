/** The Node.js chunking context: the builder that sets its options one at
    a time, and what the context answers about its name, chunk paths, asset
    URLs and paths, source maps, evaluated chunk groups and export usage.
    Environments, runtime types, chunk types, chunking configurations and
    export-usage information are referred to by number. */
module NodeJsChunking {
  import opened Wrappers
  import opened Text
  import opened FsPath
  import opened Chunking

  /** `NodeJsChunkingContext`, the value the builder produces. */
  datatype NodeJsChunkingContext = NodeJsChunkingContext(
    rootPath: FileSystemPath,
    outputRoot: FileSystemPath,
    outputRootToRootPath: string,
    clientRoot: FileSystemPath,
    clientRoots: map<string, FileSystemPath>,
    chunkRootPath: FileSystemPath,
    assetRootPath: FileSystemPath,
    assetRootPaths: map<string, FileSystemPath>,
    assetPrefix: Option<string>,
    assetPrefixes: map<string, string>,
    environment: nat,
    runtimeType: nat,
    enableFileTracing: bool,
    enableModuleMerging: bool,
    enableDynamicChunkContentLoading: bool,
    minifyType: MinifyType,
    sourceMapsType: SourceMapsType,
    manifestChunks: bool,
    moduleIdStrategy: ModuleIdStrategy,
    exportUsage: Option<nat>,
    shouldUseFileSourceMapUris: bool,
    chunkingConfigs: seq<(nat, nat)>,
    debugIds: bool)

  /** `NodeJsChunkingContextBuilder`: each option method sets one field of
      the context it holds and leaves the others alone. */
  class NodeJsChunkingContextBuilder {
    var context: NodeJsChunkingContext

    /** `NodeJsChunkingContext::builder`: the given paths, environment and
        runtime type; no overrides, no asset prefix, every feature off, no
        minification, full source maps, the development module-id strategy
        and no export-usage information. */
    constructor (rootPath: FileSystemPath, outputRoot: FileSystemPath, outputRootToRootPath: string,
                 clientRoot: FileSystemPath, chunkRootPath: FileSystemPath, assetRootPath: FileSystemPath,
                 environment: nat, runtimeType: nat)
      ensures context.rootPath == rootPath && context.outputRoot == outputRoot
      ensures context.outputRootToRootPath == outputRootToRootPath && context.clientRoot == clientRoot
      ensures context.chunkRootPath == chunkRootPath && context.assetRootPath == assetRootPath
      ensures context.environment == environment && context.runtimeType == runtimeType
      ensures context.clientRoots == map[] && context.assetRootPaths == map[]
      ensures context.assetPrefix.None? && context.assetPrefixes == map[] && context.chunkingConfigs == []
      ensures !context.enableFileTracing && !context.enableModuleMerging && !context.enableDynamicChunkContentLoading
      ensures !context.manifestChunks && !context.shouldUseFileSourceMapUris && !context.debugIds
      ensures context.minifyType == NoMinify && context.sourceMapsType == Full
      ensures context.moduleIdStrategy == DevModuleIdStrategy && context.exportUsage.None?
      ensures ReferenceChunkSourceMaps(context) && ReferenceModuleSourceMaps(context)
      ensures forall m :: ModuleExportUsageOf(context, m) == AllExports
    {
      context := NodeJsChunkingContext(
        rootPath, outputRoot, outputRootToRootPath, clientRoot, map[], chunkRootPath, assetRootPath,
        map[], None, map[], environment, runtimeType, false, false, false, NoMinify, Full, false,
        DevModuleIdStrategy, None, false, [], false);
    }

    method AssetPrefix(assetPrefix: Option<string>)
      modifies this
      ensures context == old(context).(assetPrefix := assetPrefix)
    {
      context := context.(assetPrefix := assetPrefix);
    }

    /** `asset_prefix_override`: URLs of assets with this tag start with
        `prefix`. */
    method AssetPrefixOverride(tag: string, prefix: string)
      modifies this
      ensures context == old(context).(assetPrefixes := old(context).assetPrefixes[tag := prefix])
      ensures AssetPrefixFor(context, Some(tag)) == Some(prefix)
      ensures forall t :: t != tag ==> AssetPrefixFor(context, Some(t)) == AssetPrefixFor(old(context), Some(t))
    {
      context := context.(assetPrefixes := context.assetPrefixes[tag := prefix]);
    }

    /** `asset_root_path_override`: assets with this tag go to `path`. */
    method AssetRootPathOverride(tag: string, path: FileSystemPath)
      modifies this
      ensures context == old(context).(assetRootPaths := old(context).assetRootPaths[tag := path])
      ensures AssetRootFor(context, Some(tag)) == path
      ensures forall t :: t != tag ==> AssetRootFor(context, Some(t)) == AssetRootFor(old(context), Some(t))
    {
      context := context.(assetRootPaths := context.assetRootPaths[tag := path]);
    }

    /** `client_roots_override`: URLs of assets with this tag are taken
        relative to `path`. */
    method ClientRootsOverride(tag: string, path: FileSystemPath)
      modifies this
      ensures context == old(context).(clientRoots := old(context).clientRoots[tag := path])
      ensures ClientRootFor(context, Some(tag)) == path
      ensures forall t :: t != tag ==> ClientRootFor(context, Some(t)) == ClientRootFor(old(context), Some(t))
    {
      context := context.(clientRoots := context.clientRoots[tag := path]);
    }

    method SetMinifyType(minifyType: MinifyType)
      modifies this
      ensures context == old(context).(minifyType := minifyType)
    {
      context := context.(minifyType := minifyType);
    }

    /** `source_maps`: chunks and modules reference their source maps from
        now on exactly when the type is `Full`. */
    method SourceMaps(sourceMaps: SourceMapsType)
      modifies this
      ensures context == old(context).(sourceMapsType := sourceMaps)
      ensures ReferenceChunkSourceMaps(context) <==> sourceMaps == Full
    {
      context := context.(sourceMapsType := sourceMaps);
    }

    method FileTracing(enableTracing: bool)
      modifies this
      ensures context == old(context).(enableFileTracing := enableTracing)
    {
      context := context.(enableFileTracing := enableTracing);
    }

    method ModuleMerging(enableModuleMerging: bool)
      modifies this
      ensures context == old(context).(enableModuleMerging := enableModuleMerging)
    {
      context := context.(enableModuleMerging := enableModuleMerging);
    }

    method DynamicChunkContentLoading(enable: bool)
      modifies this
      ensures context == old(context).(enableDynamicChunkContentLoading := enable)
    {
      context := context.(enableDynamicChunkContentLoading := enable);
    }

    method RuntimeType(runtimeType: nat)
      modifies this
      ensures context == old(context).(runtimeType := runtimeType)
    {
      context := context.(runtimeType := runtimeType);
    }

    method ManifestChunks(manifestChunks: bool)
      modifies this
      ensures context == old(context).(manifestChunks := manifestChunks)
    {
      context := context.(manifestChunks := manifestChunks);
    }

    method UseFileSourceMapUris()
      modifies this
      ensures context == old(context).(shouldUseFileSourceMapUris := true)
    {
      context := context.(shouldUseFileSourceMapUris := true);
    }

    method SetModuleIdStrategy(strategy: ModuleIdStrategy)
      modifies this
      ensures context == old(context).(moduleIdStrategy := strategy)
    {
      context := context.(moduleIdStrategy := strategy);
    }

    method ExportUsage(exportUsage: Option<nat>)
      modifies this
      ensures context == old(context).(exportUsage := exportUsage)
    {
      context := context.(exportUsage := exportUsage);
    }

    /** `chunking_config`: appends the configuration for a chunk type. */
    method ChunkingConfig(chunkType: nat, config: nat)
      modifies this
      ensures context == old(context).(chunkingConfigs := old(context).chunkingConfigs + [(chunkType, config)])
    {
      context := context.(chunkingConfigs := context.chunkingConfigs + [(chunkType, config)]);
    }

    method DebugIds(debugIds: bool)
      modifies this
      ensures context == old(context).(debugIds := debugIds)
    {
      context := context.(debugIds := debugIds);
    }

    /** `build`: the context as configured. */
    method Build() returns (c: NodeJsChunkingContext)
      ensures c == context
    {
      c := context;
    }
  }

  // ---------------------------------------------------------------------------
  // What the context answers

  /** `name`: the Node.js context has no name option. */
  function ContextName(c: NodeJsChunkingContext): (r: string)
    ensures r == "unknown"
  {
    "unknown"
  }

  /** The client root for a tag: its override, else the default. */
  function ClientRootFor(c: NodeJsChunkingContext, tag: Option<string>): (r: FileSystemPath)
    ensures tag.Some? && tag.value in c.clientRoots ==> r == c.clientRoots[tag.value]
    ensures tag.None? || tag.value !in c.clientRoots ==> r == c.clientRoot
  {
    if tag.Some? && tag.value in c.clientRoots then c.clientRoots[tag.value] else c.clientRoot
  }

  /** The URL prefix for a tag: its override, else the default, which may be
      missing. */
  function AssetPrefixFor(c: NodeJsChunkingContext, tag: Option<string>): (r: Option<string>)
    ensures tag.Some? && tag.value in c.assetPrefixes ==> r == Some(c.assetPrefixes[tag.value])
    ensures tag.None? || tag.value !in c.assetPrefixes ==> r == c.assetPrefix
  {
    if tag.Some? && tag.value in c.assetPrefixes then Some(c.assetPrefixes[tag.value]) else c.assetPrefix
  }

  /** The asset root for a tag: its override, else the default. */
  function AssetRootFor(c: NodeJsChunkingContext, tag: Option<string>): (r: FileSystemPath)
    ensures tag.Some? && tag.value in c.assetRootPaths ==> r == c.assetRootPaths[tag.value]
    ensures tag.None? || tag.value !in c.assetRootPaths ==> r == c.assetRootPath
  {
    if tag.Some? && tag.value in c.assetRootPaths then c.assetRootPaths[tag.value] else c.assetRootPath
  }

  const AssetUrlError := "expected client root to contain asset path"

  /** `asset_url`: the asset's path below the tag's client root, behind the
      tag's asset prefix ("/" without one); an error for a path outside
      that root. */
  function AssetUrl(c: NodeJsChunkingContext, ident: FileSystemPath, tag: Option<string>): (r: Result<string>)
    ensures r.Ok? <==> StartsWith(ident.path, ClientRootFor(c, tag).path + "/")
    ensures r.Err? ==> r.msg == AssetUrlError
    ensures r.Ok? ==> StartsWith(r.value, BaseOrSlash(AssetPrefixFor(c, tag)))
    ensures r.Ok? ==> ident.path == ClientRootFor(c, tag).path + "/" + r.value[|BaseOrSlash(AssetPrefixFor(c, tag))|..]
  {
    AssetUrlFrom(ident.path, ClientRootFor(c, tag).path, AssetPrefixFor(c, tag), AssetUrlError)
  }

  /** Every path below the tag's client root has the URL made of the prefix
      and the rest of the path. */
  lemma AssetUrlBelowClientRoot(c: NodeJsChunkingContext, fs: nat, rest: string, tag: Option<string>)
    ensures AssetUrl(c, FileSystemPath(fs, ClientRootFor(c, tag).path + "/" + rest), tag)
      == Ok(BaseOrSlash(AssetPrefixFor(c, tag)) + rest)
  {
    AssetUrlOfJoined(ClientRootFor(c, tag).path, rest, AssetPrefixFor(c, tag), AssetUrlError);
  }

  /** `chunk_path`: the ident's output name (given here as `outputName`)
      under the chunk root; the asset plays no part. */
  function ChunkPath(c: NodeJsChunkingContext, outputName: string): (r: Result<FileSystemPath>)
    ensures r.Ok? <==> JoinPath(c.chunkRootPath.path, outputName).Some?
    ensures r.Ok? ==> r.value.fs == c.chunkRootPath.fs && NormalizedPath(r.value.path)
  {
    JoinFsPath(c.chunkRootPath, outputName)
  }

  /** An output name that is one path segment lands directly in the chunk
      root. */
  lemma ChunkPathOfName(c: NodeJsChunkingContext, outputName: string)
    requires NormalizedPath(c.chunkRootPath.path) && PlainSegment(outputName)
    ensures ChunkPath(c, outputName) == Ok(FileSystemPath(c.chunkRootPath.fs,
      if c.chunkRootPath.path == "" then outputName else c.chunkRootPath.path + "/" + outputName))
  {
    JoinPlain(c.chunkRootPath.path, outputName);
  }

  /** `asset_path`: the hashed file name of the original asset under the
      tag's asset root. */
  function AssetPath(c: NodeJsChunkingContext, contentHash: string, sourcePath: string, tag: Option<string>): (r: Result<FileSystemPath>)
    ensures |contentHash| < 8 ==> r.Err?
    ensures r.Ok? ==> r.value.fs == AssetRootFor(c, tag).fs && NormalizedPath(r.value.path)
  {
    AssetPathIn(AssetRootFor(c, tag), sourcePath, contentHash)
  }

  /** A static asset whose tag's asset root lies below its client root is
      placed there under its hashed name and served at the prefix followed
      by its path below the client root. */
  lemma AssetUrlOfAssetPath(c: NodeJsChunkingContext, contentHash: string, sourcePath: string, tag: Option<string>, sub: string)
    requires AssetRootFor(c, tag).path == ClientRootFor(c, tag).path + "/" + sub
    requires NormalizedPath(AssetRootFor(c, tag).path)
    requires |contentHash| >= 8 && LowerHex(contentHash[..8])
    ensures var name := AssetFileName(sourcePath, contentHash).value;
      var placed := ClientRootFor(c, tag).path + "/" + sub + "/" + name;
      && AssetPath(c, contentHash, sourcePath, tag) == Ok(FileSystemPath(AssetRootFor(c, tag).fs, placed))
      && AssetUrl(c, FileSystemPath(AssetRootFor(c, tag).fs, placed), tag)
         == Ok(BaseOrSlash(AssetPrefixFor(c, tag)) + sub + "/" + name)
  {
    Chunking.AssetUrlOfAssetPath(ClientRootFor(c, tag).path, sub, AssetRootFor(c, tag).fs, sourcePath,
                                 contentHash, AssetPrefixFor(c, tag), AssetUrlError);
  }

  /** `reference_chunk_source_maps`. */
  function ReferenceChunkSourceMaps(c: NodeJsChunkingContext): (r: bool)
    ensures r <==> c.sourceMapsType == Full
  {
    ReferencesSourceMaps(c.sourceMapsType)
  }

  /** `reference_module_source_maps`. */
  function ReferenceModuleSourceMaps(c: NodeJsChunkingContext): (r: bool)
    ensures r <==> c.sourceMapsType == Full
  {
    ReferencesSourceMaps(c.sourceMapsType)
  }

  /** `evaluated_chunk_group`: not supported by the Node.js context. */
  function EvaluatedChunkGroup(c: NodeJsChunkingContext): (r: Result<()>)
    ensures r.Err? && r.msg == "the Node.js chunking context does not support evaluated chunk groups"
  {
    Err("the Node.js chunking context does not support evaluated chunk groups")
  }

  /** `module_export_usage`: what the export-usage information reports, and
      every export without it. */
  function ModuleExportUsageOf(c: NodeJsChunkingContext, moduleId: nat): (r: ModuleExportUsage)
    ensures c.exportUsage.None? ==> r == AllExports
    ensures c.exportUsage.Some? ==> r == Reported(c.exportUsage.value, moduleId)
  {
    match c.exportUsage
    case None => AllExports
    case Some(info) => Reported(info, moduleId)
  }
}
