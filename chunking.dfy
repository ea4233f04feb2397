/** What the browser and the Node.js chunking contexts share: the option
    types their builders set, `FileSystemPath::join` for the names they
    produce, the URL of an emitted asset, the file name of a static asset
    and the content-hashed name of a chunk. Both contexts carry the same
    code for these; it is defined once here and each context chooses its
    own roots, prefixes and messages. */
module Chunking {
  import opened Wrappers
  import opened Text
  import opened FsPath

  /** `MinifyType`; the mangling options of `Minify` are not modelled. */
  datatype MinifyType = Minify | NoMinify

  /** `SourceMapsType`: `Full`, or `None` (written `NoSourceMaps` here). */
  datatype SourceMapsType = Full | NoSourceMaps

  /** `ContentHashing::Direct`: the content hash goes into the chunk name,
      written with at least `length` hexadecimal digits. */
  datatype ContentHashing = Direct(length: nat)

  /** The content of an asset as chunk naming sees it: a file, carrying the
      64-bit xxh3 hash of its content (the hash function is not modelled),
      or a redirect. */
  datatype AssetContent = File(hash: nat) | Redirect

  /** `ModuleExportUsage`: every export of the module is used, or what the
      export-usage information `info` reports for the module (its contents are
      not modelled). */
  datatype ModuleExportUsage = AllExports | Reported(info: nat, moduleId: nat)

  /** The module-id strategy: the development strategy the builders start
      with, or another one, referred to by number. */
  datatype ModuleIdStrategy = DevModuleIdStrategy | GivenStrategy(id: nat)

  /** Whether chunks and modules reference their source maps. */
  function ReferencesSourceMaps(t: SourceMapsType): (r: bool)
    ensures r <==> t == Full
  {
    match t
    case Full => true
    case NoSourceMaps => false
  }

  // ---------------------------------------------------------------------------
  // Joining paths

  /** A path segment that normalisation keeps as it is. */
  predicate PlainSegment(s: string) {
    s != "" && s != "." && s != ".." && '/' !in s
  }

  predicate AllPlain(segments: seq<string>) {
    forall i :: 0 <= i < |segments| ==> PlainSegment(segments[i])
  }

  predicate NoSlash(segments: seq<string>) {
    forall i :: 0 <= i < |segments| ==> '/' !in segments[i]
  }

  /** A normalised path: the root "", or plain segments joined by "/". */
  predicate NormalizedPath(p: string) {
    p == "" || AllPlain(Split(p, '/'))
  }

  /** The segment walk of `normalize_path`: "" and "." vanish, ".." removes
      the segment before it and fails when there is none. */
  function NormalizeSegments(acc: seq<string>, segments: seq<string>): (r: Option<seq<string>>)
    ensures r.Some? && AllPlain(acc) && NoSlash(segments) ==> AllPlain(r.value)
    decreases |segments|
  {
    if segments == [] then Some(acc)
    else if segments[0] == "" || segments[0] == "." then NormalizeSegments(acc, segments[1..])
    else if segments[0] == ".." then
      if acc == [] then None else NormalizeSegments(acc[..|acc| - 1], segments[1..])
    else NormalizeSegments(acc + [segments[0]], segments[1..])
  }

  /** `normalize_path`: None when ".." would leave the root. */
  function NormalizePath(s: string): (r: Option<string>)
    ensures r.Some? ==> NormalizedPath(r.value)
  {
    match NormalizeSegments([], Split(s, '/'))
    case None => None
    case Some(segments) =>
      var p := Join(segments, "/");
      assert segments != [] ==> Split(p, '/') == segments by {
        if segments != [] {
          SplitJoin(segments, '/');
        }
      }
      Some(p)
  }

  /** `join_path`: the base and the path, normalised together. */
  function JoinPath(base: string, path: string): (r: Option<string>) {
    if base == "" then NormalizePath(path)
    else if path == "" then NormalizePath(base)
    else NormalizePath(base + "/" + path)
  }

  /** `FileSystemPath::join`: the joined path on the same file system, or
      an error when it would leave the root. */
  function JoinFsPath(p: FileSystemPath, path: string): (r: Result<FileSystemPath>)
    ensures r.Ok? <==> JoinPath(p.path, path).Some?
    ensures r.Ok? ==> r.value.fs == p.fs && NormalizedPath(r.value.path)
    ensures r.Err? ==> r.msg == "FileSystemPath(\"" + p.path + "\").join(\"" + path + "\") leaves the filesystem root"
  {
    match JoinPath(p.path, path)
    case None => Err("FileSystemPath(\"" + p.path + "\").join(\"" + path + "\") leaves the filesystem root")
    case Some(joined) => Ok(FileSystemPath(p.fs, joined))
  }

  /** Plain segments pass through normalisation unchanged. */
  lemma {:induction false} NormalizePlain(acc: seq<string>, segments: seq<string>)
    requires AllPlain(segments)
    ensures NormalizeSegments(acc, segments) == Some(acc + segments)
    decreases |segments|
  {
    if segments == [] {
      assert acc + segments == acc;
    } else {
      NormalizePlain(acc + [segments[0]], segments[1..]);
      assert acc + [segments[0]] + segments[1..] == acc + segments;
    }
  }

  /** Joining one more piece puts the separator before it. */
  lemma {:induction false} JoinSnoc(parts: seq<string>, x: string, sep: string)
    requires |parts| >= 1
    ensures Join(parts + [x], sep) == Join(parts, sep) + sep + x
    decreases |parts|
  {
    if |parts| == 1 {
      assert (parts + [x])[1..] == [x];
    } else {
      JoinSnoc(parts[1..], x, sep);
      assert (parts + [x])[1..] == parts[1..] + [x];
    }
  }

  /** Joining a plain name below a normalised path appends it after a "/"
      (or gives the name itself below the root). */
  lemma JoinPlain(base: string, name: string)
    requires NormalizedPath(base) && PlainSegment(name)
    ensures JoinPath(base, name) == Some(if base == "" then name else base + "/" + name)
  {
    if base == "" {
      SplitNone(name, '/');
      NormalizePlain([], [name]);
    } else {
      var parts := Split(base, '/');
      JoinSnoc(parts, name, "/");
      assert Join(parts + [name], "/") == base + "/" + name;
      assert AllPlain(parts + [name]);
      SplitJoin(parts + [name], '/');
      NormalizePlain([], parts + [name]);
      assert [] + (parts + [name]) == parts + [name];
    }
  }

  /** A normalised path never starts with "/". */
  lemma NormalizedNoLeadingSlash(p: string)
    requires NormalizedPath(p) && p != ""
    ensures p[0] != '/'
  {
  }

  // ---------------------------------------------------------------------------
  // Asset URLs

  /** The URL prefix of an asset: its base path, "/" when there is none. */
  function BaseOrSlash(base: Option<string>): string {
    base.GetOr("/")
  }

  /** `asset_url` once the context has chosen the client root and the base
      path: the asset's path without "<client root>/", behind the base;
      `message` is the context's error text for a path outside the root. */
  function AssetUrlFrom(assetPath: string, clientRoot: string, base: Option<string>, message: string): (r: Result<string>)
    ensures r.Ok? <==> StartsWith(assetPath, clientRoot + "/")
    ensures r.Err? ==> r.msg == message
    ensures r.Ok? ==> StartsWith(r.value, BaseOrSlash(base))
    ensures r.Ok? ==> assetPath == clientRoot + "/" + r.value[|BaseOrSlash(base)|..]
  {
    var prefix := clientRoot + "/";
    if StartsWith(assetPath, prefix) then
      var rest := assetPath[|prefix|..];
      assert assetPath == prefix + rest;
      Ok(BaseOrSlash(base) + rest)
    else Err(message)
  }

  /** The URL of an asset below the client root is the base followed by its
      path below that root. */
  lemma AssetUrlOfJoined(clientRoot: string, rest: string, base: Option<string>, message: string)
    ensures AssetUrlFrom(clientRoot + "/" + rest, clientRoot, base, message) == Ok(BaseOrSlash(base) + rest)
  {
    var p := clientRoot + "/" + rest;
    assert p[..|clientRoot + "/"|] == clientRoot + "/";
    assert p[|clientRoot + "/"|..] == rest;
  }

  /** With the client root at the root of its file system no normalised
      path carries the prefix "/": every asset URL fails. */
  lemma AssetUrlAtFileSystemRoot(assetPath: string, base: Option<string>, message: string)
    requires NormalizedPath(assetPath)
    ensures AssetUrlFrom(assetPath, "", base, message) == Err(message)
  {
    if assetPath != "" {
      NormalizedNoLeadingSlash(assetPath);
    }
  }

  // ---------------------------------------------------------------------------
  // Static asset file names

  /** When a path ends with "." and a slash-free extension, so does every
      slash-free last segment after its final "/". */
  lemma SegmentEndsWithExtension(parent: string, n: string, before: string, ext: string)
    requires parent + "/" + n == before + "." + ext && '/' !in ext
    ensures |n| > |ext| && n == n[..|n| - |ext| - 1] + "." + ext
  {
    var path := parent + "/" + n;
    assert path[|parent|] == '/';
    forall i | 0 <= i < |ext| + 1 ensures n[|n| - |ext| - 1 + i] == ("." + ext)[i] {
      assert n[|n| - |ext| - 1 + i] == path[|path| - |ext| - 1 + i];
      assert path[|path| - |ext| - 1 + i] == (before + "." + ext)[|before| + i];
    }
    assert n[|n| - |ext| - 1..] == "." + ext;
    assert n == n[..|n| - |ext| - 1] + n[|n| - |ext| - 1..];
  }

  /** The text of a path before ".<extension>". */
  lemma WholeEndsWithExtension(n: string, before: string, ext: string)
    requires n == before + "." + ext
    ensures |n| > |ext| && n == n[..|n| - |ext| - 1] + "." + ext
  {
    assert n[..|n| - |ext| - 1] == before;
  }

  /** The file name ends with "." and the extension. */
  lemma FileNameEndsWithExtension(path: string)
    requires ExtensionRef(path).Some?
    ensures var ext, n := ExtensionRef(path).value, FileName(path);
      |n| > |ext| && n == n[..|n| - |ext| - 1] + "." + ext
  {
    var ext := ExtensionRef(path).value;
    var split := SplitExtension(path);
    var parts := SplitFileName(path);
    assert FileName(path) == parts.1;
    if parts.0.None? {
      WholeEndsWithExtension(parts.1, split.0, ext);
    } else {
      SegmentEndsWithExtension(parts.0.value, parts.1, split.0, ext);
    }
  }

  /** ".<extension>", or nothing without one. */
  function DotExtension(ext: Option<string>): string {
    match ext
    case None => ""
    case Some(e) => "." + e
  }

  /** The file name of a path without its ".<extension>". */
  function NameBeforeExtension(path: string): (r: string)
    ensures FileName(path) == r + DotExtension(ExtensionRef(path))
  {
    var n := FileName(path);
    match ExtensionRef(path)
    case None => n
    case Some(ext) =>
      FileNameEndsWithExtension(path);
      n[..|n| - |ext| - 1]
  }

  /** The file name `asset_path` gives a static asset: the first 8
      characters of the content hash go between the source's file name and
      its extension, or after the name when it has none. Slicing a shorter
      hash panics in the source: an error here. */
  function AssetFileName(sourcePath: string, contentHash: string): (r: Result<string>)
    ensures r.Ok? <==> |contentHash| >= 8
    ensures r.Ok? ==> r.value == NameBeforeExtension(sourcePath) + "." + contentHash[..8] + DotExtension(ExtensionRef(sourcePath))
  {
    if |contentHash| < 8 then Err("content hash shorter than 8 characters")
    else
      var basename := FileName(sourcePath);
      match ExtensionRef(sourcePath)
      case Some(ext) =>
        FileNameEndsWithExtension(sourcePath);
        Ok(basename[..|basename| - |ext| - 1] + "." + contentHash[..8] + "." + ext)
      case None => Ok(basename + "." + contentHash[..8])
  }

  predicate LowerHex(s: string) {
    forall i :: 0 <= i < |s| ==> IsLowerHexDigit(s[i])
  }

  /** Lower-case hexadecimal text holds neither "/" nor ".". */
  lemma LowerHexHasNoSeparator(h: string)
    requires LowerHex(h)
    ensures '/' !in h && '.' !in h
  {
    forall i | 0 <= i < |h| ensures h[i] != '/' && h[i] != '.' {
      assert IsLowerHexDigit(h[i]);
    }
  }

  /** A stem, ".", and slash-free hexadecimal digits make a plain segment
      that does not end in "/". */
  lemma HashedStemPlain(stem: string, h: string)
    requires '/' !in stem && |h| >= 1 && LowerHex(h)
    ensures PlainSegment(stem + "." + h) && !EndsWith(stem + "." + h, "/")
  {
    LowerHexHasNoSeparator(h);
    var b := stem + "." + h;
    assert b[|stem| + 1] == h[0] && h[0] != '.';
    assert b[|b| - 1] == h[|h| - 1] && h[|h| - 1] != '/';
  }

  /** A hexadecimal content hash keeps the name a single path segment, and
      the source's extension stays the extension of the new name. */
  lemma AssetFileNameShape(sourcePath: string, contentHash: string)
    requires |contentHash| >= 8 && LowerHex(contentHash[..8])
    ensures PlainSegment(AssetFileName(sourcePath, contentHash).value)
    ensures ExtensionRef(AssetFileName(sourcePath, contentHash).value) == ExtensionRef(sourcePath) || ExtensionRef(sourcePath).None?
  {
    var r := AssetFileName(sourcePath, contentHash).value;
    var stem := NameBeforeExtension(sourcePath);
    var n := FileName(sourcePath);
    assert '/' !in stem by {
      forall i | 0 <= i < |stem| ensures stem[i] != '/' {
        assert stem[i] == n[i];
      }
    }
    var before := stem + "." + contentHash[..8];
    HashedStemPlain(stem, contentHash[..8]);
    match ExtensionRef(sourcePath)
    case Some(ext) =>
      assert r == before + "." + ext;
      SplitExtensionOf(before, ext);
    case None =>
      assert r == before;
  }

  /** `asset_path`: the asset's file name under the chosen asset root. */
  function AssetPathIn(assetRoot: FileSystemPath, sourcePath: string, contentHash: string): (r: Result<FileSystemPath>)
    ensures |contentHash| < 8 ==> r.Err?
    ensures r.Ok? ==> r.value.fs == assetRoot.fs && NormalizedPath(r.value.path)
  {
    var name :- AssetFileName(sourcePath, contentHash);
    JoinFsPath(assetRoot, name)
  }

  /** Under a normalised asset root a hexadecimal hash places the asset
      directly in that root. */
  lemma AssetPathInRoot(assetRoot: FileSystemPath, sourcePath: string, contentHash: string)
    requires NormalizedPath(assetRoot.path)
    requires |contentHash| >= 8 && LowerHex(contentHash[..8])
    ensures var name := AssetFileName(sourcePath, contentHash).value;
      AssetPathIn(assetRoot, sourcePath, contentHash)
      == Ok(FileSystemPath(assetRoot.fs, if assetRoot.path == "" then name else assetRoot.path + "/" + name))
  {
    AssetFileNameShape(sourcePath, contentHash);
    JoinPlain(assetRoot.path, AssetFileName(sourcePath, contentHash).value);
  }

  /** The URL of a name placed in a directory below the client root. */
  lemma UrlBelowClientRoot(clientRoot: string, sub: string, name: string, base: Option<string>, message: string)
    ensures AssetUrlFrom(clientRoot + "/" + sub + "/" + name, clientRoot, base, message)
      == Ok(BaseOrSlash(base) + sub + "/" + name)
  {
    assert clientRoot + "/" + sub + "/" + name == clientRoot + "/" + (sub + "/" + name);
    AssetUrlOfJoined(clientRoot, sub + "/" + name, base, message);
    assert BaseOrSlash(base) + (sub + "/" + name) == BaseOrSlash(base) + sub + "/" + name;
  }

  /** An asset placed in an asset root below the client root is served at
      the base followed by its path below the client root. */
  lemma AssetUrlOfAssetPath(clientRoot: string, sub: string, fs: nat, sourcePath: string, contentHash: string,
                            base: Option<string>, message: string)
    requires NormalizedPath(clientRoot + "/" + sub)
    requires |contentHash| >= 8 && LowerHex(contentHash[..8])
    ensures var name := AssetFileName(sourcePath, contentHash).value;
      var placed := clientRoot + "/" + sub + "/" + name;
      && AssetPathIn(FileSystemPath(fs, clientRoot + "/" + sub), sourcePath, contentHash) == Ok(FileSystemPath(fs, placed))
      && AssetUrlFrom(placed, clientRoot, base, message) == Ok(BaseOrSlash(base) + sub + "/" + name)
  {
    var name := AssetFileName(sourcePath, contentHash).value;
    AssetPathInRoot(FileSystemPath(fs, clientRoot + "/" + sub), sourcePath, contentHash);
    UrlBelowClientRoot(clientRoot, sub, name, base, message);
  }

  // ---------------------------------------------------------------------------
  // Content-hashed chunk names

  /** `{hash:0length$x}`: lower-case hexadecimal, zero-padded to at least
      `length` digits; a longer number is written in full. */
  function HashDigits(hash: nat, length: nat): (r: string)
    ensures |r| >= length && |r| >= |Hex(hash)|
  {
    PadLeft(Hex(hash), length, '0')
  }

  /** A leading zero does not change the value. */
  lemma {:induction false} HexValueLeadingZero(s: string)
    ensures HexValue("0" + s) == HexValue(s)
    decreases |s|
  {
    if s != [] {
      var t := s[..|s| - 1];
      HexValueLeadingZero(t);
      assert ("0" + s)[..|"0" + s| - 1] == "0" + t;
    } else {
      assert ("0")[..0] == [];
    }
  }

  /** Zero padding keeps the value and the digits. */
  lemma {:induction false} PadZerosValue(s: string, width: nat)
    requires LowerHex(s)
    ensures HexValue(PadLeft(s, width, '0')) == HexValue(s)
    ensures LowerHex(PadLeft(s, width, '0'))
    decreases width - |s|
  {
    if |s| < width {
      HexValueLeadingZero(s);
      assert ['0'] + s == "0" + s;
      PadZerosValue(['0'] + s, width);
    }
  }

  /** The digits read back as the hash: a width below the hash's length
      does not shorten it. */
  lemma HashDigitsRoundTrip(hash: nat, length: nat)
    ensures HexValue(HashDigits(hash, length)) == hash
    ensures LowerHex(HashDigits(hash, length))
  {
    HexRoundTrip(hash);
    PadZerosValue(Hex(hash), length);
  }

  function Pow16(k: nat): (r: nat)
    ensures r >= 1
  {
    if k == 0 then 1 else 16 * Pow16(k - 1)
  }

  /** A number below 16^k has at most k hexadecimal digits. */
  lemma {:induction false} HexLength(n: nat, k: nat)
    requires k >= 1 && n < Pow16(k)
    ensures |Hex(n)| <= k
    decreases n
  {
    if n >= 16 {
      assert k >= 2;
      var p := Pow16(k - 1);
      assert n / 16 < p by {
        assert n < 16 * p;
      }
      HexLength(n / 16, k - 1);
    }
  }

  /** A 64-bit hash written with a width of 16 or more takes exactly that
      many digits. */
  lemma HashDigitsWidth(hash: nat, length: nat)
    requires hash < Pow16(16) && length >= 16
    ensures |HashDigits(hash, length)| == length
  {
    PowMonotone(16, length);
    HexLength(hash, length);
  }

  lemma {:induction false} PowMonotone(j: nat, k: nat)
    requires j <= k
    ensures Pow16(j) <= Pow16(k)
    decreases k
  {
    if j < k {
      PowMonotone(j, k - 1);
    }
  }

  /** The chunk name under content hashing: "<prefix>-<digits><extension>",
      or "<digits><extension>" without a prefix. */
  function ContentHashedName(prefix: Option<string>, hash: nat, length: nat, extension: string): (r: string)
    ensures EndsWith(r, extension)
    ensures prefix.Some? ==> StartsWith(r, prefix.value + "-")
    ensures |r| == HashedNameStart(prefix) + |HashDigits(hash, length)| + |extension|
  {
    var name := match prefix
      case Some(p) => p + "-" + HashDigits(hash, length) + extension
      case None => HashDigits(hash, length) + extension;
    assert name[|name| - |extension|..] == extension;
    name
  }

  /** Where the digits start in a content-hashed name. */
  function HashedNameStart(prefix: Option<string>): nat {
    match prefix
    case Some(p) => |p| + 1
    case None => 0
  }

  /** The digits between the prefix and the extension read back as the
      hash. */
  lemma ContentHashedNameDigits(prefix: Option<string>, hash: nat, length: nat, extension: string)
    ensures var r := ContentHashedName(prefix, hash, length, extension);
      HexValue(r[HashedNameStart(prefix)..|r| - |extension|]) == hash
  {
    var r := ContentHashedName(prefix, hash, length, extension);
    var d := HashDigits(hash, length);
    assert r[HashedNameStart(prefix)..|r| - |extension|] == d;
    HashDigitsRoundTrip(hash, length);
  }

  /** Without "/" in the prefix and the extension the name is one path
      segment. */
  lemma ContentHashedNamePlain(prefix: Option<string>, hash: nat, length: nat, extension: string)
    requires prefix.Some? ==> '/' !in prefix.value
    requires '/' !in extension
    ensures PlainSegment(ContentHashedName(prefix, hash, length, extension))
  {
    var r := ContentHashedName(prefix, hash, length, extension);
    var d := HashDigits(hash, length);
    HashDigitsRoundTrip(hash, length);
    LowerHexHasNoSeparator(d);
    var s := HashedNameStart(prefix);
    assert r[s] == d[0];
    match prefix
    case Some(p) => assert r == p + "-" + d + extension;
    case None => assert r == d + extension;
  }
}
