/** The source-map helpers: marking the sources of runtime code and of
    packages as ignored, rewriting the sources of a source map into URLs of
    the source protocol (with their contents read from disk), and turning
    those URLs back into `file://` URIs. */
module SourceMapUtils {
  import opened Wrappers
  import Text
  import FsPath

  // ---------------------------------------------------------------------------
  // Ignore list

  /** The sources a debugger steps over: runtime code of Next.js and
      Turbopack, code inside `node_modules`, and the internal proxy modules.
      `protocol` is the source-URL protocol. */
  predicate IsIgnoredSource(protocol: string, source: string) {
    Text.StartsWith(source, protocol + "///[next]")
    || Text.StartsWith(source, protocol + "///[turbopack]")
    || Text.Contains(source, "/node_modules/")
    || Text.EndsWith(source, "__nextjs-internal-proxy.cjs")
    || Text.EndsWith(source, "__nextjs-internal-proxy.mjs")
  }

  /** The ids (indices) of the ignored sources. */
  function IgnoredIds(protocol: string, sources: seq<string>): (r: set<nat>)
    ensures forall i: nat :: i in r <==> i < |sources| && IsIgnoredSource(protocol, sources[i])
  {
    if sources == [] then {}
    else
      var n := |sources| - 1;
      IgnoredIds(protocol, sources[..n]) + (if IsIgnoredSource(protocol, sources[n]) then {n} else {})
  }

  /** Runtime sources and package sources are ignored, whatever follows
      the prefix or surrounds the `node_modules` directory. */
  lemma RuntimeAndPackageSourcesIgnored(protocol: string, before: string, after: string)
    ensures IsIgnoredSource(protocol, protocol + "///[next]" + after)
    ensures IsIgnoredSource(protocol, protocol + "///[turbopack]" + after)
    ensures IsIgnoredSource(protocol, before + "/node_modules/" + after)
  {
    var s := before + "/node_modules/" + after;
    assert Text.OccursAt(s, "/node_modules/", |before|);
    assert (protocol + "///[next]" + after)[..|protocol + "///[next]"|] == protocol + "///[next]";
    assert (protocol + "///[turbopack]" + after)[..|protocol + "///[turbopack]"|] == protocol + "///[turbopack]";
  }

  /** A source of the project itself never matches the runtime prefixes:
      it is ignored exactly when it lies in `node_modules` or is an internal
      proxy module. */
  lemma ProjectSourceIgnored(protocol: string, path: string)
    ensures var s := protocol + "///[project]/" + path;
      IsIgnoredSource(protocol, s)
      <==> (Text.Contains(s, "/node_modules/")
            || Text.EndsWith(s, "__nextjs-internal-proxy.cjs")
            || Text.EndsWith(s, "__nextjs-internal-proxy.mjs"))
  {
    var s := protocol + "///[project]/" + path;
    var n := |protocol| + 4;
    assert s[n] == 'p';
    assert (protocol + "///[next]")[n] == 'n';
    assert (protocol + "///[turbopack]")[n] == 't';
  }

  /** The part of a source map the ignore list touches: its sources and the
      set of ignored source ids. */
  class SourceMap {
    var sources: seq<string>
    var ignoreList: set<nat>

    constructor (sources: seq<string>)
      ensures this.sources == sources && ignoreList == {}
    {
      this.sources := sources;
      ignoreList := {};
    }

    /** `add_to_ignore_list`. */
    method AddToIgnoreList(id: nat)
      modifies this
      ensures sources == old(sources)
      ensures ignoreList == old(ignoreList) + {id}
    {
      ignoreList := ignoreList + {id};
    }

    /** `add_default_ignore_list`: collects the ids of the ignored sources,
        then adds each to the ignore list. */
    method AddDefaultIgnoreList(protocol: string)
      modifies this
      ensures sources == old(sources)
      ensures ignoreList == old(ignoreList) + IgnoredIds(protocol, sources)
    {
      var ignored := CollectIgnored(protocol, sources);
      AddAllToIgnoreList(ignored);
    }

    /** The second loop of `add_default_ignore_list`: each collected id is
        added to the ignore list. */
    method AddAllToIgnoreList(ids: set<nat>)
      modifies this
      ensures sources == old(sources)
      ensures ignoreList == old(ignoreList) + ids
    {
      var pending := ids;
      while pending != {}
        invariant pending <= ids
        invariant sources == old(sources)
        invariant ignoreList == old(ignoreList) + (ids - pending)
        decreases |pending|
      {
        var id :| id in pending;
        AddToIgnoreList(id);
        pending := pending - {id};
      }
    }
  }

  /** The first loop of `add_default_ignore_list`: the ids of the ignored
      sources. */
  method CollectIgnored(protocol: string, sources: seq<string>) returns (ignored: set<nat>)
    ensures ignored == IgnoredIds(protocol, sources)
  {
    ignored := {};
    for i := 0 to |sources|
      invariant ignored == IgnoredIds(protocol, sources[..i])
    {
      assert sources[..i + 1][..i] == sources[..i];
      if IsIgnoredSource(protocol, sources[i]) {
        ignored := ignored + {i};
      }
    }
    assert sources[..|sources|] == sources;
  }

  // ---------------------------------------------------------------------------
  // Source map JSON

  /** An entry of `sourcesContent`: the JSON value the map came with, kept
      as its text, or a string written by the helpers. */
  datatype SourceContent = RawJson(json: string) | JsonString(text: string)

  /** `SourceMapJson`. The fields the helpers pass through unchanged
      (version, names, mappings, ignore list, debug id) are kept together as
      their JSON text. */
  datatype SourceMapJson = SourceMapJson(
    file: Option<string>,
    sourceRoot: Option<string>,
    sources: Option<seq<Option<string>>>,
    sourcesContent: Option<seq<Option<SourceContent>>>,
    sections: Option<seq<Section>>,
    untouched: string)

  /** A section of an index map: its offset and its map. */
  datatype Section = Section(line: nat, offset: nat, sourceMap: SourceMapJson)

  /** Applies `f` to each element in order and stops at the first error,
      as a loop that propagates errors with `?` does. */
  function MapAll<A, B>(f: A -> Result<B>, s: seq<A>): Result<seq<B>> {
    if s == [] then Ok([])
    else
      var init :- MapAll(f, s[..|s| - 1]);
      var last :- f(s[|s| - 1]);
      Ok(init + [last])
  }

  /** `MapAll` succeeds exactly when `f` succeeds on every element, and
      then gives the result of `f` on each. */
  lemma {:induction false} MapAllOk<A, B>(f: A -> Result<B>, s: seq<A>)
    ensures MapAll(f, s).Ok? <==> forall i :: 0 <= i < |s| ==> f(s[i]).Ok?
    ensures MapAll(f, s).Ok? ==>
      |MapAll(f, s).value| == |s| && forall i :: 0 <= i < |s| ==> MapAll(f, s).value[i] == f(s[i]).value
  {
    if s != [] {
      var n := |s| - 1;
      MapAllOk(f, s[..n]);
      assert forall i :: 0 <= i < n ==> s[..n][i] == s[i];
    }
  }

  /** Once a prefix fails, the whole sequence fails with the same error:
      the error is that of the first element that fails. */
  lemma {:induction false} MapAllErrPersists<A, B>(f: A -> Result<B>, s: seq<A>, k: nat)
    requires k <= |s| && MapAll(f, s[..k]).Err?
    ensures MapAll(f, s) == MapAll(f, s[..k])
  {
    if k < |s| {
      var n := |s| - 1;
      assert s[..n][..k] == s[..k];
      MapAllErrPersists(f, s[..n], k);
    } else {
      assert s[..k] == s;
    }
  }

  // ---------------------------------------------------------------------------
  // Resolving sources

  /** What parsing a string as a URL gives: no URL (a relative reference), a
      `file://` URL with its system path, or a URL of another scheme. */
  datatype UrlKind = NotAUrl | FileUrl(sysPath: string) | OtherUrl

  /** What resolving a source needs from outside the model: the source-URL
      protocol, the name of the origin's file system, the origin (the file
      the map belongs to), whether its file system is on disk, URL parsing,
      mapping a system path into the disk file system, percent-decoding
      (None for a result that is not UTF-8), joining a relative path to a
      directory (None when it leaves the root), and reading a file. */
  datatype Resolver = Resolver(
    protocol: string,
    fsName: string,
    origin: FsPath.FileSystemPath,
    isDiskFs: bool,
    parseUrl: string -> UrlKind,
    fromSysPath: string -> Option<string>,
    decode: string -> Option<string>,
    joinPath: (string, string) -> Option<string>,
    read: FsPath.FileSystemPath -> FsPath.FileContent)

  /** The start of every URL of the source protocol for a file system. */
  function SourcePrefix(protocol: string, fsName: string): string {
    protocol + "///[" + fsName + "]/"
  }

  /** The rewrite of scheme-relative and server-relative URLs into `file://`
      URLs; anything else is parsed as it is. */
  function FileUrlCandidate(url: string): (r: string)
    ensures Text.StartsWith(url, "//") ==> r == "file:///" + url[2..]
    ensures !Text.StartsWith(url, "//") && Text.StartsWith(url, "/") ==> r == "file:///" + url[1..]
    ensures !Text.StartsWith(url, "/") ==> r == url
  {
    if Text.StartsWith(url, "//") then
      assert url == "//" + url[2..];
      "file:/" + url
    else if Text.StartsWith(url, "/") then
      assert url == "/" + url[1..];
      "file://" + url
    else url
  }

  /** The file a source names: None for an absolute URL of another scheme,
      Some(None) when it cannot be placed in the origin's file system. */
  function SourcePath(r: Resolver, url: string): (p: Option<Option<FsPath.FileSystemPath>>)
    ensures p.None? <==> r.parseUrl(FileUrlCandidate(url)).OtherUrl?
    ensures p.Some? && p.value.Some? ==> p.value.value.fs == r.origin.fs
    ensures r.parseUrl(FileUrlCandidate(url)).FileUrl? && !r.isDiskFs ==> p == Some(None)
    ensures r.parseUrl(FileUrlCandidate(url)).NotAUrl? ==>
      p == Some(match r.joinPath(FsPath.Parent(r.origin).path, r.decode(url).GetOr(url))
                case Some(joined) => Some(FsPath.FileSystemPath(r.origin.fs, joined))
                case None => None)
  {
    match r.parseUrl(FileUrlCandidate(url))
    case OtherUrl => None
    case FileUrl(sysPath) =>
      if r.isDiskFs then
        (match r.fromSysPath(sysPath)
         case Some(path) => Some(Some(FsPath.FileSystemPath(r.origin.fs, path)))
         case None => Some(None))
      else Some(None)
    case NotAUrl =>
      var parent := FsPath.Parent(r.origin);
      (match r.joinPath(parent.path, r.decode(url).GetOr(url))
       case Some(joined) => Some(Some(FsPath.FileSystemPath(parent.fs, joined)))
       case None => Some(None))
  }

  /** A "." or ".." path segment with its dots replaced by underscores. */
  function SanitizeSegment(segment: string): (r: string)
    ensures r != "." && r != ".."
    ensures '/' in r ==> '/' in segment
  {
    if segment == "." then "_" else if segment == ".." then "__" else segment
  }

  function SanitizeSegments(parts: seq<string>): (r: seq<string>)
    ensures |r| == |parts|
    ensures forall i :: 0 <= i < |r| ==> r[i] == SanitizeSegment(parts[i])
  {
    seq(|parts|, i requires 0 <= i < |parts| => SanitizeSegment(parts[i]))
  }

  /** The URL with every "." and ".." segment made harmless, so that it
      cannot climb out of the directory it is placed in. */
  function SanitizeDots(url: string): (r: string)
    ensures Text.Split(r, '/') == SanitizeSegments(Text.Split(url, '/'))
    ensures forall segment :: segment in Text.Split(r, '/') ==> segment != "." && segment != ".."
  {
    var sanitized := SanitizeSegments(Text.Split(url, '/'));
    Text.SplitJoin(sanitized, '/');
    Text.Join(sanitized, "/")
  }

  const NotText := "file content is not valid UTF-8"

  /** The content written for a resolved file that does not exist. */
  function UnableToRead(r: Resolver, path: string): string {
    "unable to read source [" + r.fsName + "]/" + path
  }

  /** The content written for a source that leaves the file system root. */
  function UnableToAccess(r: Resolver, url: string): string {
    "unable to access " + url + " in [" + r.fsName + "]/" + r.origin.path + " (it's leaving the filesystem root)"
  }

  /** The closure `resolve_source`: the new URL of a source and its content
      slot (None when there is no slot, Some(None) for a missing content). */
  function ResolveSource(r: Resolver, url: string, slot: Option<Option<SourceContent>>)
    : (res: Result<(string, Option<Option<SourceContent>>)>)
    ensures SourcePath(r, url).None? ==> res == Ok((url, slot))
    ensures res.Err? <==>
      slot == Some(None) && SourcePath(r, url).Some? && SourcePath(r, url).value.Some?
      && r.read(SourcePath(r, url).value.value) == FsPath.Content(None)
    ensures res.Ok? ==> (res.value.1.Some? <==> slot.Some?)
    ensures res.Ok? && slot != Some(None) ==> res.value.1 == slot
    ensures res.Ok? && slot == Some(None) && SourcePath(r, url).Some? ==> res.value.1.value.Some?
    ensures res.Ok? && SourcePath(r, url).Some? ==> Text.StartsWith(res.value.0, SourcePrefix(r.protocol, r.fsName))
    ensures SourcePath(r, url).Some? && SourcePath(r, url).value.Some? && res.Ok? ==>
      res.value.0 == SourcePrefix(r.protocol, r.fsName) + SourcePath(r, url).value.value.path
    ensures SourcePath(r, url) == Some(None) ==>
      res == Ok((SourcePrefix(r.protocol, r.fsName) + r.origin.path + "/" + SanitizeDots(url),
                 if slot == Some(None) then Some(Some(JsonString(UnableToAccess(r, url)))) else slot))
  {
    var prefix := SourcePrefix(r.protocol, r.fsName);
    match SourcePath(r, url)
    case None => Ok((url, slot))
    case Some(Some(p)) =>
      assert (prefix + p.path)[..|prefix|] == prefix;
      if slot == Some(None) then
        (match r.read(p)
         case Content(Some(text)) => Ok((prefix + p.path, Some(Some(JsonString(text)))))
         case Content(None) => Err(NotText)
         case NotFound => Ok((prefix + p.path, Some(Some(JsonString(UnableToRead(r, p.path)))))))
      else Ok((prefix + p.path, slot))
    case Some(None) =>
      var sanitized := prefix + r.origin.path + "/" + SanitizeDots(url);
      assert sanitized[..|prefix|] == prefix;
      Ok((sanitized, if slot == Some(None) then Some(Some(JsonString(UnableToAccess(r, url)))) else slot))
  }

  /** A source with the source root before it, concatenated literally. */
  function WithRoot(root: Option<string>, source: string): string {
    match root
    case Some(prefix) => prefix + source
    case None => source
  }

  /** One `(source, content)` pair of `resolve_map`: a present source gets
      the source root and is resolved, filling its content. */
  function ResolveEntry(r: Resolver, root: Option<string>, entry: (Option<string>, Option<SourceContent>))
    : (res: Result<(Option<string>, Option<SourceContent>)>)
    ensures entry.0.None? ==> res == Ok(entry)
    ensures res.Ok? ==> (res.value.0.Some? <==> entry.0.Some?)
    ensures res.Ok? && entry.1.Some? ==> res.value.1 == entry.1
  {
    match entry.0
    case None => Ok(entry)
    case Some(source) =>
      match ResolveSource(r, WithRoot(root, source), Some(entry.1))
      case Err(msg) => Err(msg)
      case Ok((url, slot)) => Ok((Some(url), slot.value))
  }

  /** `Vec::resize` with None. */
  function Resize(contents: seq<Option<SourceContent>>, n: nat): (r: seq<Option<SourceContent>>)
    ensures |r| == n
    ensures forall i :: 0 <= i < n ==> r[i] == (if i < |contents| then contents[i] else None)
  {
    if n <= |contents| then contents[..n] else contents + seq(n - |contents|, _ => None)
  }

  function Zip<A, B>(a: seq<A>, b: seq<B>): (r: seq<(A, B)>)
    requires |a| == |b|
  {
    seq(|a|, i requires 0 <= i < |a| => (a[i], b[i]))
  }

  function Firsts<A, B>(s: seq<(A, B)>): seq<A> {
    seq(|s|, i requires 0 <= i < |s| => s[i].0)
  }

  function Seconds<A, B>(s: seq<(A, B)>): seq<B> {
    seq(|s|, i requires 0 <= i < |s| => s[i].1)
  }

  /** The contents `resolve_map` starts from: the map's contents resized to
      the number of sources, or no contents at all. */
  function StartContents(m: SourceMapJson): seq<Option<SourceContent>>
    requires m.sources.Some?
  {
    Resize(if m.sourcesContent.Some? then m.sourcesContent.value else [], |m.sources.value|)
  }

  /** The resolution of each `(source, content)` pair. */
  function ResolvedEntries(r: Resolver, root: Option<string>, pairs: seq<(Option<string>, Option<SourceContent>)>)
    : Result<seq<(Option<string>, Option<SourceContent>)>>
  {
    MapAll(e => ResolveEntry(r, root, e), pairs)
  }

  /** The closure `resolve_map`: a map with sources gets every source
      resolved, its contents filled and its source root removed. */
  function ResolvedMap(r: Resolver, m: SourceMapJson): (res: Result<SourceMapJson>)
  {
    match m.sources
    case None => Ok(m)
    case Some(sources) =>
      var resolved :- ResolvedEntries(r, m.sourceRoot, Zip(sources, StartContents(m)));
      Ok(m.(sourceRoot := None, sources := Some(Firsts(resolved)), sourcesContent := Some(Seconds(resolved))))
  }

  /** What happens to one source and its content: a present source is
      the resolution of the source root followed by it, a missing source
      keeps its content, and a present content is never replaced. */
  predicate EntryOutcome(r: Resolver, root: Option<string>, source: Option<string>, content: Option<SourceContent>,
                         newSource: Option<string>, newContent: Option<SourceContent>)
  {
    && (source.Some? ==>
          var resolved := ResolveSource(r, WithRoot(root, source.value), Some(content));
          resolved.Ok? && newSource == Some(resolved.value.0))
    && (source.None? ==> newSource.None? && newContent == content)
    && (content.Some? ==> newContent == content)
  }

  lemma EntryOutcomeOf(r: Resolver, root: Option<string>, entry: (Option<string>, Option<SourceContent>))
    requires ResolveEntry(r, root, entry).Ok?
    ensures var out := ResolveEntry(r, root, entry).value;
      EntryOutcome(r, root, entry.0, entry.1, out.0, out.1)
  {
  }

  /** What `resolve_map` promises for a map with sources: the source root
      is gone, there is one content per source, each source and content
      pair changes as `EntryOutcome` says, and the other fields are
      unchanged. */
  lemma ResolvedMapShape(r: Resolver, m: SourceMapJson)
    requires m.sources.Some? && ResolvedMap(r, m).Ok?
    ensures var out := ResolvedMap(r, m).value;
      && out.sourceRoot.None? && out.sources.Some? && out.sourcesContent.Some?
      && |out.sources.value| == |m.sources.value| == |out.sourcesContent.value|
      && out.file == m.file && out.sections == m.sections && out.untouched == m.untouched
    ensures var out := ResolvedMap(r, m).value;
      forall i :: 0 <= i < |m.sources.value| ==>
        EntryOutcome(r, m.sourceRoot, m.sources.value[i], StartContents(m)[i], out.sources.value[i], out.sourcesContent.value[i])
  {
    var sources := m.sources.value;
    var contents := StartContents(m);
    var f := e => ResolveEntry(r, m.sourceRoot, e);
    var pairs := Zip(sources, contents);
    MapAllOk(f, pairs);
    var resolved := MapAll(f, pairs).value;
    var out := ResolvedMap(r, m).value;
    assert out.sources.value == Firsts(resolved) && out.sourcesContent.value == Seconds(resolved);
    forall i | 0 <= i < |sources|
      ensures EntryOutcome(r, m.sourceRoot, sources[i], contents[i], out.sources.value[i], out.sourcesContent.value[i])
    {
      assert pairs[i] == (sources[i], contents[i]);
      assert f(pairs[i]).Ok? && resolved[i] == f(pairs[i]).value;
      EntryOutcomeOf(r, m.sourceRoot, pairs[i]);
    }
  }

  /** The body of the loop of `resolve_map`: a present source gets the
      source root and is resolved with its content slot. */
  method ResolveOneEntry(r: Resolver, root: Option<string>, source: Option<string>, content: Option<SourceContent>)
    returns (res: Result<(Option<string>, Option<SourceContent>)>)
    ensures res == ResolveEntry(r, root, (source, content))
  {
    if source.None? {
      return Ok((source, content));
    }
    var url := source.value;
    if root.Some? {
      url := root.value + url;
    }
    var resolved := ResolveSource(r, url, Some(content));
    if resolved.Err? {
      return Err(resolved.msg);
    }
    return Ok((Some(resolved.value.0), resolved.value.1.value));
  }

  /** Two sequences that hold the components of `pairs` are its `Firsts` and
      `Seconds`. */
  lemma FirstsSecondsOf<A, B>(pairs: seq<(A, B)>, firsts: seq<A>, seconds: seq<B>)
    requires |firsts| == |seconds| == |pairs|
    requires forall j :: 0 <= j < |pairs| ==> (firsts[j], seconds[j]) == pairs[j]
    ensures Firsts(pairs) == firsts && Seconds(pairs) == seconds
  {
  }

  /** One more resolved pair extends the resolution of a prefix. */
  lemma ResolvedEntriesStep(r: Resolver, root: Option<string>, pairs: seq<(Option<string>, Option<SourceContent>)>, i: nat,
                            done: seq<(Option<string>, Option<SourceContent>)>, entry: (Option<string>, Option<SourceContent>))
    requires i < |pairs|
    requires ResolvedEntries(r, root, pairs[..i]) == Ok(done)
    requires ResolveEntry(r, root, pairs[i]) == Ok(entry)
    ensures ResolvedEntries(r, root, pairs[..i + 1]) == Ok(done + [entry])
  {
    assert pairs[..i + 1][..i] == pairs[..i];
  }

  /** A pair that fails to resolve fails the whole resolution. */
  lemma ResolvedEntriesStop(r: Resolver, root: Option<string>, pairs: seq<(Option<string>, Option<SourceContent>)>, i: nat,
                            done: seq<(Option<string>, Option<SourceContent>)>, msg: string)
    requires i < |pairs|
    requires ResolvedEntries(r, root, pairs[..i]) == Ok(done)
    requires ResolveEntry(r, root, pairs[i]) == Err(msg)
    ensures ResolvedEntries(r, root, pairs) == Err(msg)
  {
    assert pairs[..i + 1][..i] == pairs[..i];
    MapAllErrPersists(e => ResolveEntry(r, root, e), pairs, i + 1);
  }

  /** The loop of `resolve_map`: each source and its content slot are
      resolved in place. */
  method ResolveEntriesInPlace(r: Resolver, root: Option<string>, sources: seq<Option<string>>, contents: seq<Option<SourceContent>>)
    returns (res: Result<(seq<Option<string>>, seq<Option<SourceContent>>)>)
    requires |sources| == |contents|
    ensures res == (match ResolvedEntries(r, root, Zip(sources, contents))
                    case Ok(done) => Ok((Firsts(done), Seconds(done)))
                    case Err(msg) => Err(msg))
  {
    var newSources, newContents := sources, contents;
    ghost var pairs := Zip(sources, contents);
    ghost var done := [];
    for i := 0 to |sources|
      invariant |newSources| == |newContents| == |pairs| && |done| == i
      invariant ResolvedEntries(r, root, pairs[..i]) == Ok(done)
      invariant forall j :: 0 <= j < i ==> (newSources[j], newContents[j]) == done[j]
      invariant forall j :: i <= j < |sources| ==> (newSources[j], newContents[j]) == pairs[j]
    {
      assert (newSources[i], newContents[i]) == pairs[i];
      var entry := ResolveOneEntry(r, root, newSources[i], newContents[i]);
      if entry.Err? {
        ResolvedEntriesStop(r, root, pairs, i, done, entry.msg);
        return Err(entry.msg);
      }
      ResolvedEntriesStep(r, root, pairs, i, done, entry.value);
      newSources := newSources[i := entry.value.0];
      newContents := newContents[i := entry.value.1];
      done := done + [entry.value];
    }
    assert pairs[..|sources|] == pairs;
    FirstsSecondsOf(done, newSources, newContents);
    return Ok((newSources, newContents));
  }

  /** `resolve_map` over the fields of a map it mutates: the contents are
      resized to the sources, each source is resolved in place, and the
      source root is dropped. */
  method ResolveMap(r: Resolver, m: SourceMapJson) returns (res: Result<SourceMapJson>)
    ensures res == ResolvedMap(r, m)
  {
    if m.sources.None? {
      return Ok(m);
    }
    var contents;
    if m.sourcesContent.Some? {
      contents := Resize(m.sourcesContent.value, |m.sources.value|);
    } else {
      contents := seq(|m.sources.value|, _ => None);
    }
    assert contents == StartContents(m);
    var resolved := ResolveEntriesInPlace(r, m.sourceRoot, m.sources.value, contents);
    if resolved.Err? {
      return Err(resolved.msg);
    }
    return Ok(m.(sourceRoot := None, sources := Some(resolved.value.0), sourcesContent := Some(resolved.value.1)));
  }

  /** A section with its map resolved. */
  function ResolvedSection(r: Resolver, section: Section): Result<Section> {
    var m :- ResolvedMap(r, section.sourceMap);
    Ok(section.(sourceMap := m))
  }

  function ResolvedSections(r: Resolver, sections: seq<Section>): Result<seq<Section>> {
    MapAll(section => ResolvedSection(r, section), sections)
  }

  /** The `file` of a map, resolved without a content slot. */
  function ResolvedFile(r: Resolver, file: Option<string>): Result<Option<string>> {
    match file
    case None => Ok(None)
    case Some(f) =>
      var resolved :- ResolveSource(r, f, None);
      Ok(Some(resolved.0))
  }

  /** `resolve_source_map_sources`: `input` is None without a map and
      Some(None) for a map that is not valid JSON; both give no map. The
      file, the map and the maps of its sections (one level deep) are
      resolved. */
  function SourceMapSourcesResolved(r: Resolver, input: Option<Option<SourceMapJson>>)
    : (res: Result<Option<SourceMapJson>>)
    ensures input.None? || input.value.None? ==> res == Ok(None)
  {
    match input
    case None => Ok(None)
    case Some(None) => Ok(None)
    case Some(Some(m)) =>
      var file :- ResolvedFile(r, m.file);
      var resolved :- ResolvedMap(r, m.(file := file));
      match resolved.sections
      case None => Ok(Some(resolved))
      case Some(sections) =>
        var s :- ResolvedSections(r, sections);
        Ok(Some(resolved.(sections := Some(s))))
  }

  /** Every section of a resolved map keeps its offset and has its own map
      resolved, so its source root is gone and it has one content per
      source; the sections of a section are left as they are. */
  lemma SectionsResolved(r: Resolver, m: SourceMapJson)
    requires SourceMapSourcesResolved(r, Some(Some(m))).Ok?
    ensures var out := SourceMapSourcesResolved(r, Some(Some(m))).value.value;
      && (out.sections.Some? <==> m.sections.Some?)
      && (out.sections.Some? ==>
            |out.sections.value| == |m.sections.value|
            && forall i :: 0 <= i < |m.sections.value| ==>
                 var before, after := m.sections.value[i], out.sections.value[i];
                 && after.line == before.line && after.offset == before.offset
                 && after.sourceMap.sections == before.sourceMap.sections
                 && (before.sourceMap.sources.Some? ==>
                       after.sourceMap.sourceRoot.None?
                       && after.sourceMap.sources.Some? && after.sourceMap.sourcesContent.Some?
                       && |after.sourceMap.sourcesContent.value| == |after.sourceMap.sources.value| == |before.sourceMap.sources.value|))
  {
    var file := ResolvedFile(r, m.file).value;
    var resolved := ResolvedMap(r, m.(file := file)).value;
    if m.sources.Some? {
      ResolvedMapShape(r, m.(file := file));
    }
    if m.sections.Some? {
      var f := section => ResolvedSection(r, section);
      MapAllOk(f, m.sections.value);
      var s := MapAll(f, m.sections.value).value;
      forall i | 0 <= i < |m.sections.value|
        ensures s[i].line == m.sections.value[i].line && s[i].offset == m.sections.value[i].offset
        ensures m.sections.value[i].sourceMap.sources.Some? ==>
          s[i].sourceMap.sourceRoot.None? && s[i].sourceMap.sources.Some? && s[i].sourceMap.sourcesContent.Some?
          && |s[i].sourceMap.sourcesContent.value| == |s[i].sourceMap.sources.value| == |m.sections.value[i].sourceMap.sources.value|
        ensures s[i].sourceMap.sections == m.sections.value[i].sourceMap.sections
      {
        var section := m.sections.value[i];
        assert f(section).Ok? && s[i] == f(section).value;
        if section.sourceMap.sources.Some? {
          ResolvedMapShape(r, section.sourceMap);
        } else {
          assert s[i].sourceMap == section.sourceMap;
        }
      }
    }
  }

  /** The body of the sections loop: one section's map resolved. */
  method ResolveSection(r: Resolver, section: Section) returns (res: Result<Section>)
    ensures res == ResolvedSection(r, section)
  {
    var resolved := ResolveMap(r, section.sourceMap);
    if resolved.Err? {
      return Err(resolved.msg);
    }
    return Ok(section.(sourceMap := resolved.value));
  }

  /** The loop over the sections of `resolve_source_map_sources`: each
      section's map is resolved in place. */
  method ResolveSections(r: Resolver, sections: seq<Section>) returns (res: Result<seq<Section>>)
    ensures res == ResolvedSections(r, sections)
  {
    var out := sections;
    for i := 0 to |sections|
      invariant |out| == |sections|
      invariant ResolvedSections(r, sections[..i]) == Ok(out[..i])
      invariant out[i..] == sections[i..]
    {
      assert sections[..i + 1][..i] == sections[..i];
      assert out[i] == sections[i];
      var resolved := ResolveSection(r, out[i]);
      if resolved.Err? {
        MapAllErrPersists(section => ResolvedSection(r, section), sections, i + 1);
        return Err(resolved.msg);
      }
      out := out[i := resolved.value];
      assert out[..i + 1] == out[..i] + [resolved.value];
    }
    assert sections[..|sections|] == sections && out[..|sections|] == out;
    return Ok(out);
  }

  /** `resolve_source_map_sources`. */
  method ResolveSourceMapSources(r: Resolver, input: Option<Option<SourceMapJson>>) returns (res: Result<Option<SourceMapJson>>)
    ensures res == SourceMapSourcesResolved(r, input)
  {
    if input.None? || input.value.None? {
      return Ok(None);
    }
    var m := input.value.value;
    if m.file.Some? {
      var file := ResolveSource(r, m.file.value, None);
      m := m.(file := Some(file.value.0));
    }
    var resolved := ResolveMap(r, m);
    if resolved.Err? {
      return Err(resolved.msg);
    }
    m := resolved.value;
    if m.sections.None? {
      return Ok(Some(m));
    }
    var sections := ResolveSections(r, m.sections.value);
    if sections.Err? {
      return Err(sections.msg);
    }
    return Ok(Some(m.(sections := Some(sections.value))));
  }

  // ---------------------------------------------------------------------------
  // Turning source URLs into file URIs

  const NotDiskFs := "Expected the chunking context to have a DiskFileSystem"

  /** The closure `transform_source`: a source under `prefix` becomes the
      `file://` URI of the rest of it; `uri` is `uri_from_file` on the
      context path. */
  function FileifySource(prefix: string, uri: string -> Result<string>, src: Option<string>): (r: Result<Option<string>>)
    ensures src.None? || !Text.StartsWith(src.value, prefix) ==> r == Ok(src)
  {
    match src
    case None => Ok(None)
    case Some(s) =>
      if Text.StartsWith(s, prefix) then
        var u :- uri(s[|prefix|..]);
        Ok(Some(u))
      else Ok(src)
  }

  function FileifiedSources(prefix: string, uri: string -> Result<string>, sources: seq<Option<string>>): Result<seq<Option<string>>> {
    MapAll(src => FileifySource(prefix, uri, src), sources)
  }

  /** The sources of a map, each made a file URI where it names the
      context's file system. */
  function FileifyMap(prefix: string, uri: string -> Result<string>, m: SourceMapJson): Result<SourceMapJson> {
    match m.sources
    case None => Ok(m)
    case Some(sources) =>
      var s :- FileifiedSources(prefix, uri, sources);
      Ok(m.(sources := Some(s)))
  }

  function FileifySection(prefix: string, uri: string -> Result<string>, section: Section): Result<Section> {
    var m :- FileifyMap(prefix, uri, section.sourceMap);
    Ok(section.(sourceMap := m))
  }

  function FileifiedSections(prefix: string, uri: string -> Result<string>, sections: seq<Section>): Result<seq<Section>> {
    MapAll(section => FileifySection(prefix, uri, section), sections)
  }

  /** `fileify_source_map`: `contextFsName` is the name of the context's
      file system when it is on disk, None otherwise. */
  function Fileified(protocol: string, contextFsName: Option<string>, uri: string -> Result<string>, input: Option<Option<SourceMapJson>>)
    : (res: Result<Option<SourceMapJson>>)
    ensures input.None? || input.value.None? ==> res == Ok(None)
    ensures input.Some? && input.value.Some? && contextFsName.None? ==> res == Err(NotDiskFs)
  {
    match input
    case None => Ok(None)
    case Some(None) => Ok(None)
    case Some(Some(m)) =>
      if contextFsName.None? then Err(NotDiskFs)
      else
        var prefix := SourcePrefix(protocol, contextFsName.value);
        var out :- FileifyMap(prefix, uri, m);
        match out.sections
        case None => Ok(Some(out))
        case Some(sections) =>
          var s :- FileifiedSections(prefix, uri, sections);
          Ok(Some(out.(sections := Some(s))))
  }

  /** A source the resolver placed in a file system is made the file URI of
      its path by the fileify step for that file system. */
  lemma FileifyResolvedSource(r: Resolver, url: string, slot: Option<Option<SourceContent>>, uri: string -> Result<string>)
    requires SourcePath(r, url).Some? && SourcePath(r, url).value.Some?
    requires ResolveSource(r, url, slot).Ok?
    ensures var path := SourcePath(r, url).value.value.path;
      FileifySource(SourcePrefix(r.protocol, r.fsName), uri, Some(ResolveSource(r, url, slot).value.0))
      == (match uri(path) case Ok(u) => Ok(Some(u)) case Err(msg) => Err(msg))
  {
    var prefix := SourcePrefix(r.protocol, r.fsName);
    var path := SourcePath(r, url).value.value.path;
    assert (prefix + path)[|prefix|..] == path;
  }

  /** `transform_source` over the sources of one map, in place. */
  method FileifySources(prefix: string, uri: string -> Result<string>, sources: seq<Option<string>>)
    returns (res: Result<seq<Option<string>>>)
    ensures res == FileifiedSources(prefix, uri, sources)
  {
    var out := sources;
    for i := 0 to |sources|
      invariant |out| == |sources|
      invariant FileifiedSources(prefix, uri, sources[..i]) == Ok(out[..i])
      invariant out[i..] == sources[i..]
    {
      assert sources[..i + 1][..i] == sources[..i];
      assert out[i] == sources[i];
      if out[i].Some? && Text.StartsWith(out[i].value, prefix) {
        var u := uri(out[i].value[|prefix|..]);
        if u.Err? {
          MapAllErrPersists(src => FileifySource(prefix, uri, src), sources, i + 1);
          return Err(u.msg);
        }
        out := out[i := Some(u.value)];
      }
      assert out[..i + 1] == out[..i] + [out[i]];
    }
    assert sources[..|sources|] == sources && out[..|sources|] == out;
    return Ok(out);
  }

  /** The body of the sections loop of `fileify_source_map`. */
  method FileifyOneSection(prefix: string, uri: string -> Result<string>, section: Section) returns (res: Result<Section>)
    ensures res == FileifySection(prefix, uri, section)
  {
    if section.sourceMap.sources.None? {
      return Ok(section);
    }
    var sources := FileifySources(prefix, uri, section.sourceMap.sources.value);
    if sources.Err? {
      return Err(sources.msg);
    }
    return Ok(section.(sourceMap := section.sourceMap.(sources := Some(sources.value))));
  }

  /** `fileify_source_map` with its loops over the sources and the
      sections. */
  method FileifySourceMap(protocol: string, contextFsName: Option<string>, uri: string -> Result<string>, input: Option<Option<SourceMapJson>>)
    returns (res: Result<Option<SourceMapJson>>)
    ensures res == Fileified(protocol, contextFsName, uri, input)
  {
    if input.None? || input.value.None? {
      return Ok(None);
    }
    var m := input.value.value;
    if contextFsName.None? {
      return Err(NotDiskFs);
    }
    var prefix := SourcePrefix(protocol, contextFsName.value);
    if m.sources.Some? {
      var sources := FileifySources(prefix, uri, m.sources.value);
      if sources.Err? {
        return Err(sources.msg);
      }
      m := m.(sources := Some(sources.value));
    }
    if m.sections.None? {
      return Ok(Some(m));
    }
    var sections := m.sections.value;
    ghost var before := sections;
    for i := 0 to |sections|
      invariant |sections| == |before|
      invariant FileifiedSections(prefix, uri, before[..i]) == Ok(sections[..i])
      invariant sections[i..] == before[i..]
    {
      assert before[..i + 1][..i] == before[..i];
      assert sections[i] == before[i];
      var section := FileifyOneSection(prefix, uri, sections[i]);
      if section.Err? {
        MapAllErrPersists(s => FileifySection(prefix, uri, s), before, i + 1);
        return Err(section.msg);
      }
      sections := sections[i := section.value];
      assert sections[..i + 1] == sections[..i] + [section.value];
    }
    assert before[..|before|] == before && sections[..|before|] == sections;
    return Ok(Some(m.(sections := Some(sections))));
  }
}
