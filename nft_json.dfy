/** The node-file-trace manifest of next-api: where a traced file is listed
    relative to the manifest, and how a configured include glob is rebased
    so that it no longer starts with "./" or "../". */
module NftJson {
  import opened Wrappers
  import opened Text
  import opened FsPath

  // ---------------------------------------------------------------------------
  // Output specifiers

  /** `get_output_specifier`: a file among the outputs is listed relative to
      the manifest's folder, a file of the project relative to that folder's
      counterpart in the project file system, and anything else is an error.
      `relative(from, to)` is the relative path between two paths of one file
      system (turbo_unix_path's `get_relative_path_to`). */
  function GetOutputSpecifier(pathRef: FileSystemPath, identFolder: FileSystemPath,
                              identFolderInProjectFs: FileSystemPath, outputRoot: FileSystemPath,
                              projectRoot: FileSystemPath, relative: (string, string) -> string): (r: Result<string>)
    requires IsInsideRef(pathRef, outputRoot) ==> identFolder.fs == pathRef.fs
    requires IsInsideRef(pathRef, projectRoot) ==> identFolderInProjectFs.fs == pathRef.fs
    ensures IsInsideRef(pathRef, outputRoot) ==> r == Ok(relative(identFolder.path, pathRef.path))
    ensures !IsInsideRef(pathRef, outputRoot) && IsInsideRef(pathRef, projectRoot) ==>
      r == Ok(relative(identFolderInProjectFs.path, pathRef.path))
    ensures r.Err? <==> !IsInsideRef(pathRef, outputRoot) && !IsInsideRef(pathRef, projectRoot)
    ensures r.Err? ==> r.msg == "NftJsonAsset: cannot handle filepath " + pathRef.path
  {
    if IsInsideRef(pathRef, outputRoot) then Ok(RelativePathTo(identFolder, pathRef, relative).value)
    else if IsInsideRef(pathRef, projectRoot) then Ok(RelativePathTo(identFolderInProjectFs, pathRef, relative).value)
    else Err("NftJsonAsset: cannot handle filepath " + pathRef.path)
  }

  /** `FileSystemPath::get_relative_path_to`: defined only within one file system. */
  function RelativePathTo(from: FileSystemPath, to: FileSystemPath, relative: (string, string) -> string): (r: Option<string>)
    ensures r.Some? <==> from.fs == to.fs
    ensures r.Some? ==> r.value == relative(from.path, to.path)
  {
    if from.fs != to.fs then None else Some(relative(from.path, to.path))
  }

  // ---------------------------------------------------------------------------
  // Include globs

  /** The error for a glob whose "../" prefix leaves the project root. */
  function OutOfRootMessage(glob: string): string {
    "glob '" + glob + "'" + " is invalid, it has a prefix that " + "navigates out of the project root"
  }

  /** The glob does not start with a relative-path directive. */
  predicate Unprefixed(glob: string) {
    !StartsWith(glob, "./") && !StartsWith(glob, "../")
  }

  /** The rebasing of the rest `rest` of the glob `glob`, relative to `base`:
      each leading "../" moves to the parent (an error at the root), each
      leading "./" is dropped, and the first other prefix ends the walk. */
  function RelativizeFrom(glob: string, rest: string, base: FileSystemPath): (r: Result<(string, FileSystemPath)>)
    ensures r.Ok? ==> Unprefixed(r.value.0) && EndsWith(rest, r.value.0) && r.value.1.fs == base.fs
    ensures r.Err? ==> r.msg == OutOfRootMessage(glob)
    decreases |rest|
  {
    if StartsWith(rest, "../") then
      if base.path == "" then Err(OutOfRootMessage(glob))
      else
        var r := RelativizeFrom(glob, rest[3..], Parent(base));
        assert r.Ok? ==> EndsWith(rest, r.value.0) by {
          if r.Ok? { EndsWithAfterDrop(rest, 3, r.value.0); }
        }
        r
    else if StartsWith(rest, "./") then
      var r := RelativizeFrom(glob, rest[2..], base);
      assert r.Ok? ==> EndsWith(rest, r.value.0) by {
        if r.Ok? { EndsWithAfterDrop(rest, 2, r.value.0); }
      }
      r
    else Ok((rest, base))
  }

  /** A suffix of what is left after dropping a prefix is a suffix of the whole. */
  lemma EndsWithAfterDrop(s: string, k: nat, t: string)
    requires k <= |s| && EndsWith(s[k..], t)
    ensures EndsWith(s, t)
  {
    assert s[|s| - |t|..] == s[k..][|s[k..]| - |t|..];
  }

  /** `relativize_glob`, as a function of the glob and the base. */
  function RelativizeGlob(glob: string, relativeTo: FileSystemPath): (r: Result<(string, FileSystemPath)>)
  {
    RelativizeFrom(glob, glob, relativeTo)
  }

  /** `relativize_glob`: strips the directives in a loop. */
  method RelativizeGlobLoop(glob: string, relativeTo: FileSystemPath) returns (r: Result<(string, FileSystemPath)>)
    ensures r == RelativizeGlob(glob, relativeTo)
  {
    var base := relativeTo;
    var processed := glob;
    while true
      invariant RelativizeFrom(glob, processed, base) == RelativizeGlob(glob, relativeTo)
      decreases |processed|
    {
      if StartsWith(processed, "../") {
        if base.path == "" {
          return Err(OutOfRootMessage(glob));
        }
        base := Parent(base);
        processed := processed[3..];
      } else if StartsWith(processed, "./") {
        processed := processed[2..];
      } else {
        break;
      }
    }
    return Ok((processed, base));
  }

  /** A leading "./" is dropped and leaves the base unchanged. */
  lemma DotSlashKeepsBase(glob: string, rest: string, base: FileSystemPath)
    ensures RelativizeFrom(glob, "./" + rest, base) == RelativizeFrom(glob, rest, base)
  {
    var s := "./" + rest;
    assert !StartsWith(s, "../") by { assert s[1] != "../"[1]; }
    assert s[2..] == rest;
  }

  /** Any number of leading "./" are dropped and leave the base unchanged. */
  lemma {:induction false} DotSlashesKeepBase(glob: string, n: nat, rest: string, base: FileSystemPath)
    ensures RelativizeFrom(glob, Repeat("./", n) + rest, base) == RelativizeFrom(glob, rest, base)
  {
    if n == 0 {
      assert Repeat("./", n) + rest == rest;
    } else {
      var t := Repeat("./", n - 1) + rest;
      ConcatAssoc("./", Repeat("./", n - 1), rest);
      DotSlashKeepsBase(glob, t, base);
      DotSlashesKeepBase(glob, n - 1, rest, base);
    }
  }

  lemma ConcatAssoc(a: string, b: string, c: string)
    ensures (a + b) + c == a + (b + c)
  {
  }

  function Repeat(s: string, n: nat): (r: string)
    ensures |r| == n * |s|
  {
    if n == 0 then "" else s + Repeat(s, n - 1)
  }

  /** A leading "../" moves the base to its parent, unless the base is the
      root, where the glob is rejected. */
  lemma DotDotMovesToParent(glob: string, rest: string, base: FileSystemPath)
    ensures base.path != "" ==> RelativizeFrom(glob, "../" + rest, base) == RelativizeFrom(glob, rest, Parent(base))
    ensures base.path == "" ==> RelativizeFrom(glob, "../" + rest, base) == Err(OutOfRootMessage(glob))
  {
    var s := "../" + rest;
    assert StartsWith(s, "../");
    assert s[3..] == rest;
  }

  /** The rejection says that the glob navigates out of the project root. */
  lemma OutOfRootMessageNames(glob: string)
    ensures EndsWith(OutOfRootMessage(glob), "navigates out of the project root")
    ensures StartsWith(OutOfRootMessage(glob), "glob '" + glob + "'")
  {
    var quoted := "glob '" + glob + "'";
    var tail := "navigates out of the project root";
    var m := OutOfRootMessage(glob);
    assert m == quoted + (" is invalid, it has a prefix that " + tail);
    assert m[..|quoted|] == quoted;
    assert m[|m| - |tail|..] == tail;
  }

  /** A glob without directives is returned as is, with the base unchanged. */
  lemma UnprefixedKept(glob: string, base: FileSystemPath)
    requires Unprefixed(glob)
    ensures RelativizeGlob(glob, base) == Ok((glob, base))
  {
  }

  /** Rebasing is idempotent: the rebased glob rebases to itself. */
  lemma RelativizeIdempotent(glob: string, base: FileSystemPath)
    requires RelativizeGlob(glob, base).Ok?
    ensures var (g, b) := RelativizeGlob(glob, base).value; RelativizeGlob(g, b) == Ok((g, b))
  {
  }

  /** The unit-test globs that need no rebasing, or only drop "./". */
  lemma RelativizeGlobKeepsExamples()
    ensures RelativizeGlob("*.js", FileSystemPath(0, "project/src")) == Ok(("*.js", FileSystemPath(0, "project/src")))
    ensures RelativizeGlob("./components/*.tsx", FileSystemPath(0, "project/src"))
      == Ok(("components/*.tsx", FileSystemPath(0, "project/src")))
  {
    var base := FileSystemPath(0, "project/src");
    assert "*.js"[0] != '.';
    UnprefixedKept("*.js", base);
    DotSlashExample(base);
  }

  lemma DotSlashExample(base: FileSystemPath)
    ensures RelativizeGlob("./components/*.tsx", base) == Ok(("components/*.tsx", base))
  {
    var g := "components/*.tsx";
    assert g[0] != '.';
    assert Unprefixed(g);
    DotSlashKeepsBase("./components/*.tsx", g, base);
    DotSlashLiteral();
  }

  lemma DotSlashLiteral()
    ensures "./" + "components/*.tsx" == "./components/*.tsx"
  {
  }

  /** "../../g" from "a/b/c" gives `g` relative to "a", as the glob
      "../../lib/[glob]" from "project/src/components" gives "lib/[glob]" in
      "project". */
  lemma RelativizeTwoUp(glob: string, g: string, fs: nat, a: string, b: string, c: string)
    requires '/' !in b && '/' !in c && Unprefixed(g)
    ensures RelativizeFrom(glob, "../../" + g, FileSystemPath(fs, a + "/" + b + "/" + c)) == Ok((g, FileSystemPath(fs, a)))
  {
    var base := FileSystemPath(fs, a + "/" + b + "/" + c);
    ParentOf(fs, a + "/" + b, c);
    ParentOf(fs, a, b);
    DotDotMovesToParent(glob, "../" + g, base);
    DotDotMovesToParent(glob, g, FileSystemPath(fs, a + "/" + b));
    assert "../../" + g == "../" + ("../" + g);
  }

  /** "./../g" from "a/b" gives `g` relative to "a", as the glob
      "./../lib/[glob]" from "project/src/components" gives "lib/[glob]" in
      "project/src". */
  lemma RelativizeMixed(glob: string, g: string, fs: nat, a: string, b: string)
    requires '/' !in b && Unprefixed(g)
    ensures RelativizeFrom(glob, "./../" + g, FileSystemPath(fs, a + "/" + b)) == Ok((g, FileSystemPath(fs, a)))
  {
    var base := FileSystemPath(fs, a + "/" + b);
    ParentOf(fs, a, b);
    DotSlashKeepsBase(glob, "../" + g, base);
    DotDotMovesToParent(glob, g, base);
    assert "./../" + g == "./" + ("../" + g);
  }

  /** "../g" from the root, and "../../g" from a single directory, leave the
      project root. */
  lemma RelativizeOutOfRoot(glob: string, g: string, fs: nat, dir: string)
    requires '/' !in dir && dir != ""
    ensures RelativizeFrom(glob, "../" + g, FileSystemPath(fs, "")) == Err(OutOfRootMessage(glob))
    ensures RelativizeFrom(glob, "../../" + g, FileSystemPath(fs, dir)) == Err(OutOfRootMessage(glob))
  {
    DotDotMovesToParent(glob, g, FileSystemPath(fs, ""));
    DotDotMovesToParent(glob, "../" + g, FileSystemPath(fs, dir));
    DotDotMovesToParent(glob, g, FileSystemPath(fs, ""));
    assert "../../" + g == "../" + ("../" + g);
  }
}
