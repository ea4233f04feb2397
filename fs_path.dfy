/** String operations of `FileSystemPath` in turbo-tasks-fs: containment
    tests, relative paths, extension and stem splitting, suffixes, the denied
    path of a disk file system, the unix path-length limits, the split of a
    file into lines and the unix permission modes. A path is the normalised,
    "/"-separated text relative to the root of its file system; the file
    system itself is an identity. */
module FsPath {
  import opened Wrappers
  import opened Text

  /** A path inside a file system; `fs` stands for the file system's identity. */
  datatype FileSystemPath = FileSystemPath(fs: nat, path: string)

  // ---------------------------------------------------------------------------
  // Containment

  /** `is_inside_ref`: `p` lies strictly below `other`. */
  function IsInsideRef(p: FileSystemPath, other: FileSystemPath): (r: bool)
    ensures r <==> p.fs == other.fs && (other.path == "" || StartsWith(p.path, other.path + "/"))
  {
    if p.fs == other.fs && StartsWith(p.path, other.path) then
      if other.path == "" then true
      else
        assert StartsWith(p.path, other.path + "/") ==> p.path[|other.path|] == '/';
        |other.path| < |p.path| && p.path[|other.path|] == '/'
    else false
  }

  /** `is_inside_or_equal_ref`: like `IsInsideRef`, but also accepts the path itself. */
  function IsInsideOrEqualRef(p: FileSystemPath, other: FileSystemPath): (r: bool)
    ensures r <==> p.fs == other.fs && (p.path == other.path || IsInsideRef(p, other))
  {
    if p.fs == other.fs && StartsWith(p.path, other.path) then
      if other.path == "" then true
      else |other.path| == |p.path| || p.path[|other.path|] == '/'
    else false
  }

  /** `get_path_to`: the path of `inner` relative to `base`, without a leading "/". */
  function GetPathTo(base: FileSystemPath, inner: FileSystemPath): (r: Option<string>)
    ensures r.Some? ==> inner.fs == base.fs
    ensures r.Some? ==> inner.path == if base.path == "" then r.value else base.path + "/" + r.value
  {
    if base.fs != inner.fs then None
    else if !StartsWith(inner.path, base.path) then None
    else
      var rest := inner.path[|base.path|..];
      assert inner.path == base.path + rest;
      if base.path == "" then Some(rest)
      else if StartsWith(rest, "/") then
        assert rest == "/" + rest[1..];
        Some(rest[1..])
      else None
  }

  /** `get_path_to` succeeds exactly for the paths strictly inside a non-root
      base, and for every path of the file system when the base is the root. */
  lemma GetPathToInside(base: FileSystemPath, inner: FileSystemPath)
    ensures GetPathTo(base, inner).Some? <==>
      (if base.path == "" then inner.fs == base.fs else IsInsideRef(inner, base))
  {
    if base.fs == inner.fs && base.path != "" && IsInsideRef(inner, base) {
      assert inner.path[..|base.path|] == (base.path + "/")[..|base.path|];
      assert inner.path[|base.path|..][..1] == (base.path + "/")[|base.path|..];
    }
  }

  /** `get_path_to` inverts appending a relative path below the base. */
  lemma GetPathToJoined(base: FileSystemPath, rel: string)
    requires base.path != ""
    ensures GetPathTo(base, FileSystemPath(base.fs, base.path + "/" + rel)) == Some(rel)
  {
    var p := base.path + "/" + rel;
    assert p[..|base.path|] == base.path;
    assert p[|base.path|..] == "/" + rel;
  }

  // ---------------------------------------------------------------------------
  // Denied path

  /** `is_path_denied` of a disk file system whose optional `denied` path is
      normalised and relative to its root. */
  function IsPathDenied(denied: Option<string>, path: string): (r: bool)
    ensures r <==> denied.Some? && (path == denied.value || StartsWith(path, denied.value + "/"))
  {
    match denied
    case None => false
    case Some(d) =>
      assert StartsWith(path, d + "/") ==> path[..|d|] == (d + "/")[..|d|] && path[|d|] == '/';
      StartsWith(path, d) && (|path| == |d| || path[|d|] == '/')
  }

  /** Denying ".next" denies ".next" and ".next/x", but not ".next2". */
  lemma IsPathDeniedExamples()
    ensures IsPathDenied(Some("denied_dir"), "denied_dir")
    ensures IsPathDenied(Some("denied_dir"), "denied_dir/file")
    ensures !IsPathDenied(Some("denied_dir"), "denied_dir2")
    ensures !IsPathDenied(None, "denied_dir")
  {
    assert "denied_dir/file"[..11] == "denied_dir/";
    assert "denied_dir2"[10] == '2';
  }

  // ---------------------------------------------------------------------------
  // File name, extension and stem

  /** `split_extension`: the path without its extension, and the extension. */
  function SplitExtension(path: string): (r: (string, Option<string>))
    ensures r.1.None? ==> r.0 == path
    ensures r.1.Some? ==> path == r.0 + "." + r.1.value
    ensures r.1.Some? ==> '.' !in r.1.value && '/' !in r.1.value
    ensures r.1.Some? ==> r.0 != "" && !EndsWith(r.0, "/")
  {
    match RSplitOnce(path, '.')
    case None => (path, None)
    case Some((before, ext)) =>
      if '/' in ext || EndsWith(before, "/") || before == "" then (path, None)
      else (before, Some(ext))
  }

  /** A path split at its last "." has that extension when the text after it
      has no "/" and the file name is not a dotfile. */
  lemma SplitExtensionOf(before: string, ext: string)
    requires '.' !in ext && '/' !in ext && before != "" && !EndsWith(before, "/")
    ensures SplitExtension(before + "." + ext) == (before, Some(ext))
  {
    RSplitOnceLast(before, ext, '.');
  }

  /** No extension when the text after the last "." contains "/" or the file
      name starts with its only ".". */
  lemma SplitExtensionNone(before: string, ext: string)
    requires '.' !in ext && ('/' in ext || before == "" || EndsWith(before, "/"))
    ensures SplitExtension(before + "." + ext) == (before + "." + ext, None)
  {
    RSplitOnceLast(before, ext, '.');
  }

  /** `split_file_name`: the parent, if any, and the file name. */
  function SplitFileName(path: string): (r: (Option<string>, string))
    ensures '/' !in r.1
    ensures r.0.None? ==> r.1 == path
    ensures r.0.Some? ==> path == r.0.value + "/" + r.1
  {
    match RSplitOnce(path, '/')
    case Some((parent, name)) => (Some(parent), name)
    case None => (None, path)
  }

  /** `file_name`: the last segment, "" for the root. */
  function FileName(path: string): (r: string)
    ensures '/' !in r && EndsWith(path, r)
  {
    var r := SplitFileName(path).1;
    assert path == (if SplitFileName(path).0.None? then "" else SplitFileName(path).0.value + "/") + r;
    r
  }

  /** The file name is the text after the last "/". */
  lemma FileNameOf(parent: string, name: string)
    requires '/' !in name
    ensures FileName(parent + "/" + name) == name
  {
    RSplitOnceLast(parent, name, '/');
  }

  /** `parent`: the path without its last segment; the root is its own
      parent, and a single segment's parent is the root. */
  function Parent(p: FileSystemPath): (r: FileSystemPath)
    ensures r.fs == p.fs
    ensures p.path == "" ==> r == p
    ensures '/' !in p.path ==> r.path == ""
    ensures '/' in p.path ==> p.path == r.path + "/" + FileName(p.path)
  {
    if p.path == "" then p else FileSystemPath(p.fs, SplitFileName(p.path).0.GetOr(""))
  }

  /** The parent of a path below `parent` is `parent`. */
  lemma ParentOf(fs: nat, parent: string, name: string)
    requires '/' !in name
    ensures Parent(FileSystemPath(fs, parent + "/" + name)).path == parent
  {
    RSplitOnceLast(parent, name, '/');
  }

  /** `split_file_stem_extension`: parent, stem and extension. */
  function SplitFileStemExtension(path: string): (r: (Option<string>, string, Option<string>))
    ensures '/' !in r.1
    ensures r.2 == SplitExtension(path).1
    ensures SplitExtension(path).0 ==
      if r.0.None? then r.1 else r.0.value + "/" + r.1
  {
    var (beforeExt, ext) := SplitExtension(path);
    match RSplitOnce(beforeExt, '/')
    case Some((parent, stem)) => (Some(parent), stem, ext)
    case None => (None, beforeExt, ext)
  }

  /** `extension_ref`. */
  function ExtensionRef(path: string): (r: Option<string>)
    ensures r.Some? ==> path == SplitExtension(path).0 + "." + r.value && '.' !in r.value && '/' !in r.value
  {
    SplitExtension(path).1
  }

  /** `has_extension`: a plain suffix test. */
  function HasExtension(path: string, extension: string): (r: bool)
    ensures r <==> EndsWith(path, extension)
  {
    |extension| <= |path| && path[|path| - |extension|..] == extension
  }

  /** `with_extension`: replaces the extension; the empty extension removes it. */
  function WithExtension(path: string, extension: string): (r: string)
    ensures extension == "" ==> r == SplitExtension(path).0
    ensures extension != "" ==> r == SplitExtension(path).0 + "." + extension
  {
    var stripped := SplitExtension(path).0;
    if extension == "" then stripped else stripped + "." + extension
  }

  /** `file_stem`: the file name without its extension; None for an empty stem. */
  function FileStem(path: string): (r: Option<string>)
    ensures r.Some? ==> r.value != "" && '/' !in r.value
    ensures r.Some? ==> EndsWith(SplitExtension(path).0, r.value)
  {
    var (_, stem, _) := SplitFileStemExtension(path);
    if stem == "" then None
    else
      var parts := SplitFileStemExtension(path);
      assert SplitExtension(path).0 ==
        (if parts.0.None? then "" else parts.0.value + "/") + stem;
      Some(stem)
  }

  /** The stem is missing only for the root and for a path ending in "/",
      which a normalised path never does. */
  lemma FileStemNone(path: string)
    ensures FileStem(path).None? <==> path == "" || EndsWith(path, "/")
  {
    var (beforeExt, ext) := SplitExtension(path);
    if ext.Some? {
      assert !EndsWith(path, "/") by {
        assert path == beforeExt + "." + ext.value;
        if ext.value == "" { assert path[|path| - 1] == '.'; }
        else { assert path[|path| - 1] == ext.value[|ext.value| - 1]; }
      }
    } else {
      var parts := SplitFileStemExtension(path);
      if path != "" && EndsWith(path, "/") {
        RSplitOnceLast(path[..|path| - 1], "", '/');
        assert path == path[..|path| - 1] + ['/'] + "";
      }
      if parts.1 == "" && parts.0.None? {
        assert path == "";
      }
      if parts.1 == "" && parts.0.Some? {
        assert path == parts.0.value + "/";
        assert path[|path| - 1..] == "/";
      }
    }
  }

  /** With a non-empty extension free of "." and "/", `with_extension` makes
      that the extension and keeps the rest of the path. */
  lemma WithExtensionExtension(path: string, extension: string)
    requires extension != "" && '.' !in extension && '/' !in extension
    requires FileStem(path).Some?
    ensures SplitExtension(WithExtension(path, extension)) ==
      (SplitExtension(path).0, Some(extension))
  {
    var before := SplitExtension(path).0;
    var stem := FileStem(path).value;
    assert before != "" && before[|before| - 1] == stem[|stem| - 1];
    assert !EndsWith(before, "/") by {
      assert before[|before| - 1..] == [stem[|stem| - 1]];
      assert stem[|stem| - 1] in stem;
    }
    SplitExtensionOf(before, extension);
  }

  /** Cases from the tests of `with_extension`, on "foo/bar.txt". */
  lemma WithExtensionExamples()
    ensures WithExtension("foo/bar.txt", "json") == "foo/bar.json"
    ensures WithExtension("foo/bar.txt", "") == "foo/bar"
  {
    assert "foo/bar.txt" == "foo/bar" + "." + "txt";
    SplitExtensionOf("foo/bar", "txt");
  }

  /** Cases from the tests of `with_extension`, on "bar.txt". */
  lemma WithExtensionNoSlashExamples()
    ensures WithExtension("bar.txt", "json") == "bar.json"
    ensures WithExtension("bar.txt", "") == "bar"
  {
    assert "bar.txt" == "bar" + "." + "txt";
    SplitExtensionOf("bar", "txt");
  }

  /** Cases from the tests of `with_extension`, on paths without extension. */
  lemma WithExtensionAddsExamples()
    ensures WithExtension("foo/bar", "json") == "foo/bar.json"
    ensures WithExtension("bar", "json") == "bar.json"
  {
    assert '.' !in "foo/bar";
    assert '.' !in "bar";
  }

  /** Cases from the tests of `file_stem`: the root and a nested file. */
  lemma FileStemExamples()
    ensures FileStem("") == None
    ensures FileStem("foo/bar.txt") == Some("bar")
  {
    assert "foo/bar.txt" == "foo/bar" + "." + "txt";
    SplitExtensionOf("foo/bar", "txt");
    assert "foo/bar" == "foo" + ['/'] + "bar";
    RSplitOnceLast("foo", "bar", '/');
  }

  /** Cases from the tests of `file_stem`: a file at the root. */
  lemma FileStemRootExample()
    ensures FileStem("bar.txt") == Some("bar")
  {
    assert "bar.txt" == "bar" + "." + "txt";
    SplitExtensionOf("bar", "txt");
    assert '/' !in "bar";
  }

  /** Cases from the tests of `file_stem`: without extension. */
  lemma FileStemNoExtensionExample()
    ensures FileStem("foo/bar") == Some("bar")
  {
    assert '.' !in "foo/bar";
    assert "foo/bar" == "foo" + ['/'] + "bar";
    RSplitOnceLast("foo", "bar", '/');
  }

  /** Cases from the tests of `file_stem`: a dotfile keeps its dot. */
  lemma FileStemDotfileExample()
    ensures FileStem("foo/.bar") == Some(".bar")
  {
    assert "foo/.bar" == "foo/" + "." + "bar";
    SplitExtensionNone("foo/", "bar");
    assert "foo/.bar" == "foo" + ['/'] + ".bar";
    RSplitOnceLast("foo", ".bar", '/');
  }

  // ---------------------------------------------------------------------------
  // Suffixes

  /** `append`: adds a suffix to the file name; a suffix with "/" is an error. */
  function Append(path: string, suffix: string): (r: Result<string>)
    ensures r.Err? <==> '/' in suffix
    ensures r.Ok? ==> r.value == path + suffix
  {
    if '/' in suffix then Err("must not append '/'") else Ok(path + suffix)
  }

  /** `append_to_stem`: adds a suffix before the extension. */
  function AppendToStem(path: string, appending: string): (r: Result<string>)
    ensures r.Err? <==> '/' in appending
    ensures r.Ok? && SplitExtension(path).1.Some? ==>
      r.value == SplitExtension(path).0 + appending + "." + SplitExtension(path).1.value
    ensures r.Ok? && SplitExtension(path).1.None? ==> r.value == path + appending
  {
    if '/' in appending then Err("must not append '/'")
    else
      match SplitExtension(path)
      case (before, Some(ext)) => Ok(before + appending + "." + ext)
      case (_, None) => Ok(path + appending)
  }

  /** Appending to the stem a suffix without "." or "/" keeps the extension. */
  lemma AppendToStemKeepsExtension(path: string, appending: string)
    requires '.' !in appending && '/' !in appending
    ensures AppendToStem(path, appending).Ok?
    ensures SplitExtension(AppendToStem(path, appending).value).1 == SplitExtension(path).1
  {
    var q := AppendToStem(path, appending).value;
    match SplitExtension(path)
    case (before, Some(ext)) =>
      assert q == (before + appending) + "." + ext;
      assert !EndsWith(before + appending, "/") by {
        if appending != "" {
          assert (before + appending)[|before + appending| - 1] == appending[|appending| - 1];
          assert appending[|appending| - 1] in appending;
        } else {
          assert before + appending == before;
        }
      }
      SplitExtensionOf(before + appending, ext);
    case (_, None) =>
      match RSplitOnce(path, '.')
      case None =>
        assert '.' !in q;
      case Some((b, e)) =>
        assert path == b + "." + e;
        assert q == b + "." + (e + appending);
        assert '.' !in e + appending;
        SplitExtensionNone(b, e + appending);
  }

  // ---------------------------------------------------------------------------
  // Path length (unix)

  const MaxFileNameLengthUnix: nat := 255
  const MaxPathLength: nat := 1024 - 8

  /** The components of a unix path as the standard library sees them: empty
      and "." components are dropped after the first position. */
  function Components(path: string): (r: seq<string>)
    ensures forall i :: 0 <= i < |r| ==> r[i] != "" && '/' !in r[i]
  {
    Keep(Split(path, '/'), true)
  }

  function Keep(parts: seq<string>, first: bool): (r: seq<string>)
    requires forall i :: 0 <= i < |parts| ==> '/' !in parts[i]
    ensures forall i :: 0 <= i < |r| ==> r[i] != "" && '/' !in r[i]
  {
    if parts == [] then []
    else if parts[0] == "" || (parts[0] == "." && !first) then Keep(parts[1..], false)
    else [parts[0]] + Keep(parts[1..], false)
  }

  /** `Path::file_name`: the last component unless it is "." or "..". */
  function StdFileName(path: string): (r: Option<string>)
    ensures r.Some? ==> r.value != "" && r.value != "." && r.value != ".." && '/' !in r.value
  {
    var cs := Components(path);
    if cs == [] then None
    else
      var last := cs[|cs| - 1];
      if last == "." || last == ".." then None else Some(last)
  }

  /** `validate_path_length` on unix: a file name over 255 bytes or a path over
      1016 bytes is an error; otherwise the path is returned unchanged. */
  function ValidatePathLength(path: string): (r: Result<string>)
    ensures r.Ok? <==>
      |path| <= MaxPathLength && (StdFileName(path).None? || |StdFileName(path).value| <= MaxFileNameLengthUnix)
    ensures r.Ok? ==> r.value == path
  {
    var nameLength := match StdFileName(path) case Some(n) => |n| case None => 0;
    if nameLength > MaxFileNameLengthUnix then
      Err("file name is too long (exceeds 255 bytes)")
    else if |path| > MaxPathLength then
      Err("path is too long (exceeds 1016 bytes)")
    else Ok(path)
  }

  /** A too-long file name is reported before a too-long path. */
  lemma ValidatePathLengthOrder(path: string)
    requires StdFileName(path).Some? && |StdFileName(path).value| > MaxFileNameLengthUnix
    ensures ValidatePathLength(path) == Err("file name is too long (exceeds 255 bytes)")
  {
  }

  // ---------------------------------------------------------------------------
  // Lines

  /** One line of a text file with the byte offset at which it starts. */
  datatype FileLine = FileLine(content: string, bytesOffset: nat)

  /** The content of a file: missing, or its bytes, with the text when they
      are valid UTF-8. */
  datatype FileContent = NotFound | Content(text: Option<string>)

  datatype FileLinesContent = Lines(lines: seq<FileLine>) | Unparsable | LinesNotFound

  /** Sum of the lengths of `parts`, plus one newline after each. */
  function OffsetAfter(parts: seq<string>): nat {
    if parts == [] then 0 else OffsetAfter(parts[..|parts| - 1]) + |parts[|parts| - 1]| + 1
  }

  /** The lines of `parts`, the first starting at `offset`. */
  function LinesFrom(parts: seq<string>, offset: nat): (r: seq<FileLine>)
    ensures |r| == |parts|
    ensures forall i :: 0 <= i < |r| ==> r[i].content == parts[i]
  {
    if parts == [] then [] else [FileLine(parts[0], offset)] + LinesFrom(parts[1..], offset + |parts[0]| + 1)
  }

  /** `lines_ref`: splits the text at "\n", giving each line its byte offset. */
  method LinesRef(content: FileContent) returns (r: FileLinesContent)
    ensures content.NotFound? ==> r == LinesNotFound
    ensures content.Content? && content.text.None? ==> r == Unparsable
    ensures content.Content? && content.text.Some? ==>
      r == Lines(LinesFrom(Split(content.text.value, '\n'), 0))
  {
    match content
    case NotFound => return LinesNotFound;
    case Content(None) => return Unparsable;
    case Content(Some(text)) =>
      var lines := SplitLines(Split(text, '\n'));
      return Lines(lines);
  }

  /** The loop of `lines_ref` over the pieces of the text. */
  method SplitLines(parts: seq<string>) returns (lines: seq<FileLine>)
    ensures lines == LinesFrom(parts, 0)
  {
    lines := [];
    var bytesOffset: nat := 0;
    var i := 0;
    while i < |parts|
      invariant 0 <= i <= |parts|
      invariant bytesOffset == OffsetAfter(parts[..i])
      invariant |lines| == i
      invariant forall k :: 0 <= k < i ==> lines[k] == FileLine(parts[k], OffsetAfter(parts[..k]))
    {
      OffsetAfterSnoc(parts, i);
      lines := lines + [FileLine(parts[i], bytesOffset)];
      bytesOffset := bytesOffset + |parts[i]| + 1;
      i := i + 1;
    }
    forall k | 0 <= k < |parts|
      ensures lines[k] == LinesFrom(parts, 0)[k]
    {
      LinesFromOffsets(parts, 0, k);
    }
  }

  lemma OffsetAfterSnoc(parts: seq<string>, i: nat)
    requires i < |parts|
    ensures OffsetAfter(parts[..i + 1]) == OffsetAfter(parts[..i]) + |parts[i]| + 1
  {
    assert parts[..i + 1][..i] == parts[..i];
  }

  /** Every line starts at the sum of the previous lines' lengths, plus one
      per newline. */
  lemma {:induction false} LinesFromOffsets(parts: seq<string>, offset: nat, i: nat)
    requires i < |parts|
    ensures LinesFrom(parts, offset)[i].bytesOffset == offset + OffsetAfter(parts[..i])
    decreases i
  {
    var next := offset + |parts[0]| + 1;
    if i == 0 {
      assert LinesFrom(parts, offset) == [FileLine(parts[0], offset)] + LinesFrom(parts[1..], next);
      assert parts[..0] == [];
    } else {
      LinesFromOffsets(parts[1..], next, i - 1);
      LinesFromTail(parts, offset, i);
      OffsetAfterPrefix(parts, i);
      var rest := OffsetAfter(parts[1..][..i - 1]);
      assert LinesFrom(parts, offset)[i].bytesOffset == next + rest;
    }
  }

  /** Past the first line, the lines are those of the rest of the text. */
  lemma LinesFromTail(parts: seq<string>, offset: nat, i: nat)
    requires 0 < i < |parts|
    ensures LinesFrom(parts, offset)[i] == LinesFrom(parts[1..], offset + |parts[0]| + 1)[i - 1]
  {
    var tail := LinesFrom(parts[1..], offset + |parts[0]| + 1);
    assert LinesFrom(parts, offset) == [FileLine(parts[0], offset)] + tail;
  }

  /** The offset after a nonempty prefix counts its first part, then the rest. */
  lemma OffsetAfterPrefix(parts: seq<string>, i: nat)
    requires 0 < i <= |parts|
    ensures OffsetAfter(parts[..i]) == |parts[0]| + 1 + OffsetAfter(parts[1..][..i - 1])
  {
    OffsetAfterCons(parts[0], parts[1..i]);
    assert [parts[0]] + parts[1..i] == parts[..i];
    assert parts[1..][..i - 1] == parts[1..i];
  }

  lemma {:induction false} OffsetAfterCons(head: string, tail: seq<string>)
    ensures OffsetAfter([head] + tail) == |head| + 1 + OffsetAfter(tail)
    decreases |tail|
  {
    if tail != [] {
      var last := tail[|tail| - 1];
      OffsetAfterCons(head, tail[..|tail| - 1]);
      assert ([head] + tail)[..|tail|] == [head] + tail[..|tail| - 1];
    }
  }

  /** Each line's offset is where its text starts in the file. */
  lemma {:induction false} LineTextAtOffset(parts: seq<string>, i: nat)
    requires i < |parts|
    ensures OffsetAfter(parts[..i]) + |parts[i]| <= |Join(parts, "\n")|
    ensures Join(parts, "\n")[OffsetAfter(parts[..i])..OffsetAfter(parts[..i]) + |parts[i]|] == parts[i]
    decreases i
  {
    if i == 0 {
      if |parts| > 1 {
        assert Join(parts, "\n") == parts[0] + ("\n" + Join(parts[1..], "\n"));
      }
    } else {
      LineTextAtOffset(parts[1..], i - 1);
      OffsetAfterCons(parts[0], parts[1..i]);
      assert [parts[0]] + parts[1..i] == parts[..i];
      assert parts[1..][..i - 1] == parts[1..i];
      var rest := Join(parts[1..], "\n");
      assert Join(parts, "\n") == (parts[0] + "\n") + rest;
      var o := OffsetAfter(parts[1..i]);
      assert Join(parts, "\n")[|parts[0]| + 1 + o..|parts[0]| + 1 + o + |parts[i]|]
        == rest[o..o + |parts[i]|];
    }
  }

  /** The lines of a text, with their offsets, locate each line in the text. */
  lemma LinesRefLocates(text: string, i: nat)
    requires i < |Split(text, '\n')|
    ensures var line := LinesFrom(Split(text, '\n'), 0)[i];
      line.bytesOffset + |line.content| <= |text| &&
      text[line.bytesOffset..line.bytesOffset + |line.content|] == line.content
  {
    var parts := Split(text, '\n');
    LinesFromOffsets(parts, 0, i);
    LineTextAtOffset(parts, i);
  }

  // ---------------------------------------------------------------------------
  // Permissions (unix)

  datatype Permissions = Readable | Writable | Executable

  /** The default permission is `Writable`. */
  const DefaultPermissions := Writable

  /** The unix mode written for each permission: 0o444, 0o664 and 0o755. */
  function ToMode(p: Permissions): (r: bv32)
    ensures r & 0x1FF == r
  {
    match p
    case Readable => 0x124
    case Writable => 0x1B4
    case Executable => 0x1ED
  }

  /** The permission read back from a unix mode: read-only when no write bit
      is set, else executable when any execute bit is set, else writable. */
  function FromMode(mode: bv32): (r: Permissions)
    ensures r == Readable <==> mode & 0x92 == 0
    ensures r == Executable <==> mode & 0x92 != 0 && mode & 0x49 != 0
  {
    if mode & 0x92 == 0 then Readable
    else if mode & 0x49 != 0 then Executable
    else Writable
  }

  /** Writing a permission and reading it back gives the same permission. */
  lemma FromModeToMode(p: Permissions)
    ensures FromMode(ToMode(p)) == p
  {
  }
}
