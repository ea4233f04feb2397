/** Next.js metadata routes (robots, manifest, sitemap, icons and social
    images placed in the app directory): which route handler serves a
    metadata file, how the page path of a dynamic metadata route is
    rewritten, and the caching and size rules of a static one. The handler
    code itself is a text template and is not modelled. */
module MetadataRoute {
  import opened Wrappers
  import FsPath
  import NextConfig

  /** `MetadataItem`: a metadata file served as is, or a module generating
      it. */
  datatype MetadataItem = StaticItem(path: string) | DynamicItem(path: string)

  /** The route handler chosen for a metadata file. */
  datatype RouteSource =
    | StaticRoute(mode: NextConfig.NextMode, path: string)
    | DynamicTextRoute(path: string)
    | DynamicSitemapRoute(path: string, withGenerate: bool)
    | DynamicImageRoute(path: string, withMetadata: bool)

  /** `path.file_stem().unwrap_or_default()`. */
  function StemOf(path: string): string {
    FsPath.FileStem(path).GetOr("")
  }

  /** `get_app_metadata_route_source`: a static file gets the static route;
      a dynamic robots or manifest file the text route; a dynamic sitemap the
      sitemap route; anything else the image route, the last two with or
      without generated ids. */
  function MetadataRouteSource(mode: NextConfig.NextMode, metadata: MetadataItem, isMultiDynamic: bool): (r: RouteSource)
    ensures metadata.StaticItem? ==> r == StaticRoute(mode, metadata.path)
    ensures var stem := StemOf(metadata.path);
      metadata.DynamicItem? && (stem == "robots" || stem == "manifest") ==> r == DynamicTextRoute(metadata.path)
    ensures metadata.DynamicItem? && StemOf(metadata.path) == "sitemap" ==> r == DynamicSitemapRoute(metadata.path, isMultiDynamic)
    ensures var stem := StemOf(metadata.path);
      metadata.DynamicItem? && stem != "robots" && stem != "manifest" && stem != "sitemap" ==>
        r == DynamicImageRoute(metadata.path, isMultiDynamic)
  {
    match metadata
    case StaticItem(path) => StaticRoute(mode, path)
    case DynamicItem(path) =>
      var stem := StemOf(path);
      if stem == "robots" || stem == "manifest" then DynamicTextRoute(path)
      else if stem == "sitemap" then DynamicSitemapRoute(path, isMultiDynamic)
      else DynamicImageRoute(path, isMultiDynamic)
  }

  // ---------------------------------------------------------------------------
  // Page segments

  datatype PageType = Page | Route

  /** `PageSegment`: the segments this rewrite looks at, and every other kind
      of segment of an app page as `Other`. */
  datatype PageSegment = Static(name: string) | Dynamic(name: string) | PageTypeSegment(pageType: PageType) | Other(text: string)

  const MetadataIdSegment := Dynamic("__metadata_id__")

  /** `AppPage`: the segments of an app-directory page path. */
  class AppPage {
    var segments: seq<PageSegment>

    constructor (segments: seq<PageSegment>)
      ensures this.segments == segments
    {
      this.segments := segments;
    }

    /** `page.0.pop()`: removes the last segment, if any. */
    method Pop()
      modifies this
      ensures segments == if old(segments) == [] then [] else old(segments)[..|old(segments)| - 1]
    {
      if segments != [] {
        segments := segments[..|segments| - 1];
      }
    }

    /** `page.push(segment)`. */
    method Push(segment: PageSegment)
      modifies this
      ensures segments == old(segments) + [segment]
    {
      segments := segments + [segment];
    }

    /** `page.last()`. */
    function Last(): (r: Option<PageSegment>)
      reads this
      ensures r.None? <==> segments == []
      ensures r.Some? ==> r.value == segments[|segments| - 1]
    {
      if segments == [] then None else Some(segments[|segments| - 1])
    }
  }

  /** The segments without the last one. */
  function DropLast(s: seq<PageSegment>): (r: seq<PageSegment>)
    ensures |r| == if s == [] then 0 else |s| - 1
    ensures r == s[..|r|]
  {
    if s == [] then [] else s[..|s| - 1]
  }

  /** The page of a metadata route: for dynamic metadata the trailing route
      segment is replaced by the id segment when ids are generated, a
      trailing "sitemap" becomes "sitemap.xml" otherwise, and the route
      segment is appended again. */
  function MetadataPage(segments: seq<PageSegment>, isDynamic: bool, isMultiDynamic: bool): seq<PageSegment> {
    if !isDynamic then segments
    else
      var popped := DropLast(segments);
      var middle :=
        if isMultiDynamic then popped + [MetadataIdSegment]
        else if popped != [] && popped[|popped| - 1] == Static("sitemap") then DropLast(popped) + [Static("sitemap.xml")]
        else popped;
      middle + [PageTypeSegment(Route)]
  }

  /** The page rewriting of `get_app_metadata_route_entry`, on the page in
      place, returning the route source it serves. */
  method GetAppMetadataRouteEntry(mode: NextConfig.NextMode, page: AppPage, metadata: MetadataItem,
                                  generateSitemaps: bool, generateImageMetadata: bool)
    returns (source: RouteSource)
    modifies page
    ensures source == MetadataRouteSource(mode, metadata, generateSitemaps || generateImageMetadata)
    ensures page.segments == MetadataPage(old(page.segments), metadata.DynamicItem?, generateSitemaps || generateImageMetadata)
  {
    var isDynamicMetadata := metadata.DynamicItem?;
    var isMultiDynamic := generateSitemaps || generateImageMetadata;
    if isDynamicMetadata {
      page.Pop();
      if isMultiDynamic {
        page.Push(MetadataIdSegment);
      } else {
        var last := page.Last();
        if last == Some(Static("sitemap")) {
          page.Pop();
          page.Push(Static("sitemap.xml"));
        }
      }
      page.Push(PageTypeSegment(Route));
    }
    source := MetadataRouteSource(mode, metadata, isMultiDynamic);
  }

  /** Static metadata leaves the page as it is. */
  lemma StaticPageUnchanged(segments: seq<PageSegment>, isMultiDynamic: bool)
    ensures MetadataPage(segments, false, isMultiDynamic) == segments
  {
  }

  /** A dynamic route with generated ids serves "<page>/[__metadata_id__]/route". */
  lemma MultiDynamicPage(prefix: seq<PageSegment>, last: PageSegment)
    ensures MetadataPage(prefix + [last], true, true) == prefix + [MetadataIdSegment, PageTypeSegment(Route)]
  {
    assert DropLast(prefix + [last]) == prefix;
  }

  /** A dynamic "sitemap" route without generated ids is served as
      "sitemap.xml". */
  lemma SitemapPage(prefix: seq<PageSegment>, last: PageSegment)
    ensures MetadataPage(prefix + [Static("sitemap"), last], true, false)
         == prefix + [Static("sitemap.xml"), PageTypeSegment(Route)]
  {
    assert DropLast(prefix + [Static("sitemap"), last]) == prefix + [Static("sitemap")];
    assert DropLast(prefix + [Static("sitemap")]) == prefix;
  }

  /** Any other dynamic route without generated ids keeps its page. */
  lemma OtherDynamicPage(prefix: seq<PageSegment>, last: PageSegment)
    requires prefix == [] || prefix[|prefix| - 1] != Static("sitemap")
    ensures MetadataPage(prefix + [last], true, false) == prefix + [PageTypeSegment(Route)]
  {
    assert DropLast(prefix + [last]) == prefix;
  }

  /** A dynamic metadata page always ends with the route segment, keeps every
      segment before the last two, and grows by at most one segment. */
  lemma DynamicPageShape(segments: seq<PageSegment>, isMultiDynamic: bool)
    requires |segments| >= 2
    ensures var r := MetadataPage(segments, true, isMultiDynamic);
      && r[|r| - 1] == PageTypeSegment(Route)
      && r[..|segments| - 2] == segments[..|segments| - 2]
      && |r| == if isMultiDynamic then |segments| + 1 else |segments|
  {
    var popped := DropLast(segments);
    assert DropLast(popped) == segments[..|segments| - 2];
  }

  /** Without generated ids, rewriting a rewritten page changes nothing more:
      its route segment comes back, and "sitemap.xml" is no longer
      "sitemap". */
  lemma RewriteIdempotent(segments: seq<PageSegment>)
    ensures var once := MetadataPage(segments, true, false);
      MetadataPage(once, true, false) == once
  {
    var once := MetadataPage(segments, true, false);
    var popped := DropLast(segments);
    var middle := if popped != [] && popped[|popped| - 1] == Static("sitemap") then DropLast(popped) + [Static("sitemap.xml")] else popped;
    assert once == middle + [PageTypeSegment(Route)];
    assert DropLast(once) == middle;
    assert middle == [] || middle[|middle| - 1] != Static("sitemap");
  }

  // ---------------------------------------------------------------------------
  // Static routes

  const CacheHeaderNone := "no-cache, no-store"
  const CacheHeaderRevalidate := "public, max-age=0, must-revalidate"

  /** The cache-control header of a static metadata route: revalidated in
      production builds, never cached in development. */
  function StaticCacheControl(mode: NextConfig.NextMode): (r: string)
    ensures mode == NextConfig.Build ==> r == CacheHeaderRevalidate
    ensures mode == NextConfig.Development ==> r == CacheHeaderNone
  {
    if mode == NextConfig.Build then CacheHeaderRevalidate else CacheHeaderNone
  }

  /** `StaticMetadataFileSizeIssue`. */
  datatype SizeIssue = SizeIssue(imgName: string, path: string, fileSizeLimitMb: nat, fileSize: nat)

  /** The size limit in megabytes: 5 for Twitter images, 8 for the others. */
  function FileSizeLimitMb(stem: string): nat {
    if stem == "twitter-image" then 5 else 8
  }

  /** The file a static route inlines, and the issue it emits: a Twitter or
      Open Graph image over its size limit is replaced by "" with an issue,
      everything else is inlined as base64, and a missing file is an error.
      `content` is the file's bytes, None when it is not found; `display` is
      the path as the error message prints it. */
  function StaticRouteContent(path: string, display: string, content: Option<seq<bv8>>, base64: seq<bv8> -> string)
    : (r: (Option<SizeIssue>, Result<string>))
    ensures var stem := StemOf(path);
      r.0.Some? <==>
        && (stem == "twitter-image" || stem == "opengraph-image")
        && content.Some? && |content.value| > FileSizeLimitMb(stem) * 1024 * 1024
    ensures r.0.Some? ==> r.1 == Ok("") && r.0.value.fileSize == |content.value|
    ensures r.0.None? && content.Some? ==> r.1 == Ok(base64(content.value))
    ensures content.None? ==> r == (None, Err("metadata file not found: " + display))
  {
    var stem := StemOf(path);
    var isTwitter := stem == "twitter-image";
    var isOpenGraph := stem == "opengraph-image";
    var limit := FileSizeLimitMb(stem);
    if (isTwitter || isOpenGraph) && content.Some? && |content.value| > limit * 1024 * 1024 then
      (Some(SizeIssue(if isTwitter then "Twitter" else "Open Graph", path, limit, |content.value|)), Ok(""))
    else if content.None? then (None, Err("metadata file not found: " + display))
    else (None, Ok(base64(content.value)))
  }

  /** The limits in bytes: 5 MiB for Twitter images, 8 MiB for Open Graph
      images; files of other names are inlined whatever their size. */
  lemma SizeLimits(path: string, display: string, content: seq<bv8>, base64: seq<bv8> -> string)
    ensures StemOf(path) == "twitter-image" ==>
      (StaticRouteContent(path, display, Some(content), base64).0.Some? <==> |content| > 5242880)
    ensures StemOf(path) == "opengraph-image" ==>
      (StaticRouteContent(path, display, Some(content), base64).0.Some? <==> |content| > 8388608)
    ensures StemOf(path) !in ["twitter-image", "opengraph-image"] ==>
      StaticRouteContent(path, display, Some(content), base64) == (None, Ok(base64(content)))
  {
  }
}
