/** Path normalisation of patterns (`Pattern::with_normalized_path` in
    turbopack-core/src/resolve/pattern.rs) and `split_last_segment`. */
module PatternPath {
  import opened Wrappers
  import opened Text
  import opened Patterns

  // ---------------------------------------------------------------------
  // normalize_path of a plain string
  // ---------------------------------------------------------------------

  /** A segment that survives path normalisation. */
  predicate CleanSegment(s: string) {
    s != "" && s != "." && s != ".." && '/' !in s
  }

  predicate CleanSegments(segs: seq<string>) {
    forall i | 0 <= i < |segs| :: CleanSegment(segs[i])
  }

  /** The segment walk of `normalize_path`: empty and "." segments are
      skipped, ".." removes the previous segment and fails when there is
      none. */
  function NormalizeSegments(pieces: seq<string>, acc: seq<string>): (r: Option<seq<string>>)
    requires CleanSegments(acc)
    requires forall i | 0 <= i < |pieces| :: '/' !in pieces[i]
    ensures r.Some? ==> CleanSegments(r.value)
    decreases |pieces|
  {
    if |pieces| == 0 then Some(acc)
    else
      var p := pieces[0];
      if p == "" || p == "." then NormalizeSegments(pieces[1..], acc)
      else if p == ".." then
        if |acc| == 0 then None else NormalizeSegments(pieces[1..], acc[..|acc| - 1])
      else NormalizeSegments(pieces[1..], acc + [p])
  }

  /** `normalize_path` (turbo_unix_path): the clean segments of `s` joined
      with "/", or `None` when ".." leaves the root. */
  function NormalizePath(s: string): Option<string>
  {
    var segs :- NormalizeSegments(Split(s, '/'), []);
    Some(Join(segs, "/"))
  }

  /** Walking clean segments keeps them all. */
  lemma {:induction false} NormalizeCleanSegments(pieces: seq<string>, acc: seq<string>)
    requires CleanSegments(acc) && CleanSegments(pieces)
    ensures NormalizeSegments(pieces, acc) == Some(acc + pieces)
    decreases |pieces|
  {
    if |pieces| == 0 {
      assert acc + pieces == acc;
    } else {
      assert CleanSegment(pieces[0]);
      assert CleanSegments(pieces[1..]);
      NormalizeCleanSegments(pieces[1..], acc + [pieces[0]]);
      assert acc + [pieces[0]] + pieces[1..] == acc + pieces;
    }
  }

  /** Splitting joined pieces gives the pieces back when none contains the
      separator. */
  lemma {:induction false} SplitJoin(parts: seq<string>, c: char)
    requires |parts| > 0
    requires forall i | 0 <= i < |parts| :: c !in parts[i]
    ensures Split(Join(parts, [c]), c) == parts
    decreases |parts|
  {
    if |parts| == 1 {
      assert IndexOf(parts[0], c).None?;
    } else {
      var rest := Join(parts[1..], [c]);
      var s := parts[0] + [c] + rest;
      assert Join(parts, [c]) == s;
      assert s[|parts[0]|] == c;
      assert s[..|parts[0]|] == parts[0];
      IndexOfFirst(s, c, |parts[0]|);
      assert s[|parts[0]| + 1..] == rest;
      SplitJoin(parts[1..], c);
      assert [parts[0]] + parts[1..] == parts;
    }
  }

  /** `normalize_path` is idempotent: a normalised path is already normal. */
  lemma NormalizePathIdempotent(s: string)
    requires NormalizePath(s).Some?
    ensures NormalizePath(NormalizePath(s).value) == NormalizePath(s)
  {
    var segs := NormalizeSegments(Split(s, '/'), []).value;
    var t := Join(segs, "/");
    if |segs| == 0 {
      assert t == "";
      assert Split("", '/') == [""];
    } else {
      SplitJoin(segs, '/');
      NormalizeCleanSegments(segs, []);
      assert [] + segs == segs;
    }
  }

  // ---------------------------------------------------------------------
  // with_normalized_path
  // ---------------------------------------------------------------------

  /** The elements a concatenation is rebuilt from. */
  datatype PathElement = Segment(pattern: Pattern) | Separator

  function WithSeparator(segs: seq<PathElement>, isLast: bool): seq<PathElement> {
    if isLast then segs else segs + [Separator]
  }

  /** One "/"-separated piece of a constant, as the source handles it: empty
      and "." pieces are skipped together with the separator after them, and
      ".." removes a preceding `constant/`. */
  function PieceAsWritten(segs: seq<PathElement>, piece: string, isLast: bool): Option<seq<PathElement>>
  {
    if piece == "." || piece == "" then Some(segs)
    else if piece == ".." then
      if |segs| == 0 then None
      else if segs[|segs| - 1] == Separator && |segs| >= 2
        && segs[|segs| - 2].Segment? && segs[|segs| - 2].pattern.Constant? then
        Some(segs[..|segs| - 2])
      else Some(WithSeparator(segs + [Segment(Constant(".."))], isLast))
    else Some(WithSeparator(segs + [Segment(Constant(piece))], isLast))
  }

  /** A `constant/` at the end of `segs` that a following ".." removes: a
      whole segment (after a separator or at the start) other than "..". */
  predicate Resolvable(segs: seq<PathElement>) {
    && |segs| >= 2
    && segs[|segs| - 1] == Separator
    && segs[|segs| - 2].Segment?
    && segs[|segs| - 2].pattern.Constant?
    && segs[|segs| - 2].pattern.value != ".."
    && (|segs| == 2 || segs[|segs| - 3] == Separator)
  }

  /** The corrected piece rule: the first piece of a constant that follows a
      dynamic part is the rest of that segment and is kept as it is, and ".."
      only removes a whole segment that is not itself "..". */
  function Piece(segs: seq<PathElement>, piece: string, isFirst: bool, isLast: bool): Option<seq<PathElement>>
  {
    if isFirst && |segs| > 0 && segs[|segs| - 1].Segment? then
      Some(WithSeparator(segs + [Segment(Constant(piece))], isLast))
    else if piece == "." || piece == "" then Some(segs)
    else if piece == ".." then
      if |segs| == 0 then None
      else if Resolvable(segs) then Some(segs[..|segs| - 2])
      else Some(WithSeparator(segs + [Segment(Constant(".."))], isLast))
    else Some(WithSeparator(segs + [Segment(Constant(piece))], isLast))
  }

  /** The walk over the pieces of one constant. */
  function Pieces(segs: seq<PathElement>, pieces: seq<string>, isFirst: bool, corrected: bool): Option<seq<PathElement>>
    decreases |pieces|
  {
    if |pieces| == 0 then Some(segs)
    else
      var next :- if corrected then Piece(segs, pieces[0], isFirst, |pieces| == 1)
                  else PieceAsWritten(segs, pieces[0], |pieces| == 1);
      Pieces(next, pieces[1..], false, corrected)
  }

  /** A part of a normalised concatenation. */
  predicate SimplePart(p: Pattern) {
    p.Constant? || p.Dynamic? || p.DynamicNoSlash?
  }

  /** The walk over the parts of a concatenation: constants are split at
      "/", dynamic parts are segments of their own. */
  function Elements(segs: seq<PathElement>, list: seq<Pattern>, corrected: bool): Option<seq<PathElement>>
    requires forall i | 0 <= i < |list| :: SimplePart(list[i])
    decreases |list|
  {
    if |list| == 0 then Some(segs)
    else
      var next :- if list[0].Constant? then Pieces(segs, Split(list[0].value, '/'), true, corrected)
                  else Some(segs + [Segment(list[0])]);
      Elements(next, list[1..], corrected)
  }

  function ElementPatterns(segs: seq<PathElement>): (r: seq<Pattern>)
    ensures |r| == |segs|
    ensures forall i | 0 <= i < |segs| ::
      r[i] == (if segs[i].Segment? then segs[i].pattern else Constant("/"))
  {
    if |segs| == 0 then []
    else [if segs[0].Segment? then segs[0].pattern else Constant("/")] + ElementPatterns(segs[1..])
  }

  /** What `with_normalized_path` accepts in one alternative. */
  predicate PathPart(p: Pattern) {
    SimplePart(p) || (p.Concatenation? && forall i | 0 <= i < |p.list| :: SimplePart(p.list[i]))
  }

  /** What `with_normalized_path` demands: a normalised pattern (anything
      else panics). */
  predicate PathNormalizable(p: Pattern) {
    PathPart(p) || (p.Alternatives? && forall i | 0 <= i < |p.list| :: PathPart(p.list[i]))
  }

  /** `normalize_path_internal` on one alternative. */
  function NormalizePathPart(p: Pattern, corrected: bool): Option<Pattern>
    requires PathPart(p)
  {
    match p
    case Constant(c) =>
      var s :- NormalizePath(ReplaceChar(c, '\\', '/'));
      Some(Constant(s))
    case Concatenation(list) =>
      var segs :- Elements([], list, corrected);
      Some(Concatenation(ElementPatterns(segs)))
    case _ => Some(p)
  }

  function NormalizePathEach(list: seq<Pattern>, corrected: bool): (r: Option<seq<Pattern>>)
    requires forall i | 0 <= i < |list| :: PathPart(list[i])
    ensures r.Some? ==> |r.value| == |list|
  {
    if |list| == 0 then Some([])
    else
      var head :- NormalizePathPart(list[0], corrected);
      var tail :- NormalizePathEach(list[1..], corrected);
      Some([head] + tail)
  }

  function WithNormalizedPathImpl(p: Pattern, corrected: bool): (r: Option<Pattern>)
    requires PathNormalizable(p)
    ensures r.Some? ==> NormalForm(r.value)
  {
    if p.Alternatives? then
      var list :- NormalizePathEach(p.list, corrected);
      Some(Normalize(Alternatives(list)))
    else
      var q :- NormalizePathPart(p, corrected);
      Some(Normalize(q))
  }

  /** `with_normalized_path` as written. */
  function WithNormalizedPathAsWritten(p: Pattern): Option<Pattern>
    requires PathNormalizable(p)
  {
    WithNormalizedPathImpl(p, false)
  }

  /** `with_normalized_path` with the corrected piece rule. */
  function WithNormalizedPath(p: Pattern): Option<Pattern>
    requires PathNormalizable(p)
  {
    WithNormalizedPathImpl(p, true)
  }

  /** On a constant both forms normalise the path with back-slashes read as
      "/", and fail exactly when ".." leaves the root. */
  lemma ConstantPathNormalized(c: string)
    ensures PathNormalizable(Constant(c))
    ensures WithNormalizedPath(Constant(c)) == WithNormalizedPathAsWritten(Constant(c))
    ensures WithNormalizedPath(Constant(c)).None? <==> NormalizePath(ReplaceChar(c, '\\', '/')).None?
    ensures WithNormalizedPath(Constant(c)).Some? ==>
      WithNormalizedPath(Constant(c)).value == Constant(NormalizePath(ReplaceChar(c, '\\', '/')).value)
  {
  }

  /** A constant without back-slashes is normalised as it stands. */
  lemma PlainConstantPath(c: string)
    requires '\\' !in c
    ensures PathNormalizable(Constant(c))
    ensures WithNormalizedPath(Constant(c)) == (match NormalizePath(c)
      case None => None
      case Some(u) => Some(Constant(u)))
  {
    ConstantPathNormalized(c);
    assert ReplaceChar(c, '\\', '/') == c;
  }

  /** As in the source's `with_normalized_path` test ("a/../.." gives
      nothing): a ".." that leaves the root fails the whole pattern. */
  lemma LeavingRootConstant(a: string)
    requires CleanSegment(a) && '\\' !in a
    ensures var c := a + ['/'] + (".." + ['/'] + "..");
      PathNormalizable(Constant(c)) && WithNormalizedPath(Constant(c)).None?
  {
    var c := a + ['/'] + (".." + ['/'] + "..");
    PlainConstantPath(c);
    LeavingRootPath(a);
  }

  lemma LeavingRootPath(a: string)
    requires CleanSegment(a)
    ensures NormalizePath(a + ['/'] + (".." + ['/'] + "..")).None?
  {
    SplitPieces3(a, "..", "..");
    var ps := [a, "..", ".."];
    assert [] + [a] == [a];
    assert ps[1..] == ["..", ".."] && ["..", ".."][1..] == [".."];
    assert NormalizeSegments(ps, []) == NormalizeSegments(["..", ".."], [a]);
    assert [a][..0] == [];
    assert NormalizeSegments(["..", ".."], [a]) == NormalizeSegments([".."], []);
  }

  /** As in the same test ("a/b/../c" gives "a/c"): ".." removes the
      segment before it. */
  lemma DotDotConstant(a: string, b: string, d: string)
    requires CleanSegment(a) && CleanSegment(b) && CleanSegment(d)
    requires '\\' !in a && '\\' !in b && '\\' !in d
    ensures var c := a + ['/'] + (b + ['/'] + (".." + ['/'] + d));
      PathNormalizable(Constant(c)) && WithNormalizedPath(Constant(c)) == Some(Constant(a + "/" + d))
  {
    var c := a + ['/'] + (b + ['/'] + (".." + ['/'] + d));
    PlainConstantPath(c);
    DotDotPath(a, b, d);
  }

  lemma DotDotPath(a: string, b: string, d: string)
    requires CleanSegment(a) && CleanSegment(b) && CleanSegment(d)
    ensures NormalizePath(a + ['/'] + (b + ['/'] + (".." + ['/'] + d))) == Some(a + "/" + d)
  {
    SplitPieces(a, b, "..", d);
    DotDotSegments(a, b, d);
    assert [a, d][1..] == [d];
    assert Join([a, d], "/") == a + "/" + d;
  }

  lemma DotDotSegments(a: string, b: string, d: string)
    requires CleanSegment(a) && CleanSegment(b) && CleanSegment(d)
    ensures NormalizeSegments([a, b, "..", d], []) == Some([a, d])
  {
    var ps := [a, b, "..", d];
    assert [] + [a] == [a] && [a] + [b] == [a, b] && [a] + [d] == [a, d];
    assert ps[1..] == [b, "..", d] && [b, "..", d][1..] == ["..", d] && ["..", d][1..] == [d];
    assert NormalizeSegments(ps, []) == NormalizeSegments([b, "..", d], [a]);
    assert NormalizeSegments([b, "..", d], [a]) == NormalizeSegments(["..", d], [a, b]);
    assert [a, b][..1] == [a];
    assert NormalizeSegments(["..", d], [a, b]) == NormalizeSegments([d], [a]);
    assert [d][1..] == [];
    assert NormalizeSegments([d], [a]) == NormalizeSegments([], [a, d]);
  }

  /** As in the same test ("a/b/" gives "a/b"): a trailing "/" is
      dropped. */
  lemma TrailingSlashConstant(a: string, b: string)
    requires CleanSegment(a) && CleanSegment(b) && '\\' !in a && '\\' !in b
    ensures var c := a + ['/'] + (b + ['/'] + "");
      PathNormalizable(Constant(c)) && WithNormalizedPath(Constant(c)) == Some(Constant(a + "/" + b))
  {
    var c := a + ['/'] + (b + ['/'] + "");
    PlainConstantPath(c);
    TrailingSlashPath(a, b);
  }

  lemma TrailingSlashPath(a: string, b: string)
    requires CleanSegment(a) && CleanSegment(b)
    ensures NormalizePath(a + ['/'] + (b + ['/'] + "")) == Some(a + "/" + b)
  {
    SplitPieces3(a, b, "");
    var ps := [a, b, ""];
    assert [] + [a] == [a];
    assert ps[1..] == [b, ""] && [b, ""][1..] == [""];
    assert NormalizeSegments(ps, []) == NormalizeSegments([b, ""], [a]);
    assert [a] + [b] == [a, b];
    assert NormalizeSegments([b, ""], [a]) == NormalizeSegments([""], [a, b]);
    assert NormalizeSegments([""], [a, b]) == NormalizeSegments([], [a, b]);
    assert [a, b][1..] == [b];
    assert Join([a, b], "/") == a + "/" + b;
  }

  /** Three pieces without "/" joined by "/" split back into themselves. */
  lemma SplitPieces3(a: string, b: string, c: string)
    requires '/' !in a && '/' !in b && '/' !in c
    ensures Split(a + ['/'] + (b + ['/'] + c), '/') == [a, b, c]
  {
    SplitNone(c, '/');
    SplitFirst(b, c, '/');
    SplitFirst(a, b + ['/'] + c, '/');
  }

  /** Four pieces without "/" joined by "/" split back into themselves. */
  lemma SplitPieces(a: string, b: string, c: string, d: string)
    requires '/' !in a && '/' !in b && '/' !in c && '/' !in d
    ensures Split(a + ['/'] + (b + ['/'] + (c + ['/'] + d)), '/') == [a, b, c, d]
  {
    SplitNone(d, '/');
    SplitFirst(c, d, '/');
    SplitFirst(b, c + ['/'] + d, '/');
    SplitFirst(a, b + ['/'] + (c + ['/'] + d), '/');
  }

  /** The segment loop of `with_normalized_path` over a concatenation's
      parts, with the inner walk over the "/"-separated pieces of each
      constant. */
  method ConcatenationElements(list: seq<Pattern>, corrected: bool) returns (r: Option<seq<PathElement>>)
    requires forall i | 0 <= i < |list| :: SimplePart(list[i])
    ensures r == Elements([], list, corrected)
  {
    var segments: seq<PathElement> := [];
    var i := 0;
    while i < |list|
      invariant 0 <= i <= |list|
      invariant Elements([], list, corrected) == Elements(segments, list[i..], corrected)
    {
      var part := list[i];
      assert list[i..][0] == part && list[i..][1..] == list[i + 1..];
      if part.Constant? {
        var next := ConstantPieces(segments, Split(part.value, '/'), corrected);
        if next.None? {
          return None;
        }
        segments := next.value;
      } else {
        segments := segments + [Segment(part)];
      }
      i := i + 1;
    }
    return Some(segments);
  }

  /** The inner walk of `with_normalized_path` over the "/"-separated
      pieces of one constant. */
  method ConstantPieces(segs0: seq<PathElement>, pieces: seq<string>, corrected: bool) returns (r: Option<seq<PathElement>>)
    ensures r == Pieces(segs0, pieces, true, corrected)
  {
    var segments := segs0;
    var j := 0;
    while j < |pieces|
      invariant 0 <= j <= |pieces|
      invariant Pieces(segs0, pieces, true, corrected) == Pieces(segments, pieces[j..], j == 0, corrected)
    {
      var piece := pieces[j];
      var isLast := j + 1 == |pieces|;
      assert pieces[j..][0] == piece && pieces[j..][1..] == pieces[j + 1..];
      var next := if corrected then Piece(segments, piece, j == 0, isLast)
                  else PieceAsWritten(segments, piece, isLast);
      if next.None? {
        return None;
      }
      segments := next.value;
      j := j + 1;
    }
    return Some(segments);
  }

  // ---------------------------------------------------------------------
  // Properties of the corrected walk
  // ---------------------------------------------------------------------

  /** The number of ".." segments. */
  function DotDots(segs: seq<PathElement>): nat {
    if |segs| == 0 then 0
    else DotDots(segs[..|segs| - 1]) + (if segs[|segs| - 1] == Segment(Constant("..")) then 1 else 0)
  }

  lemma DotDotsAppend(segs: seq<PathElement>, e: PathElement)
    ensures DotDots(segs + [e]) == DotDots(segs) + (if e == Segment(Constant("..")) then 1 else 0)
  {
    assert (segs + [e])[..|segs|] == segs;
  }

  lemma DotDotsWithSeparator(segs: seq<PathElement>, e: PathElement, isLast: bool)
    ensures DotDots(WithSeparator(segs + [e], isLast)) >= DotDots(segs)
  {
    DotDotsAppend(segs, e);
    DotDotsAppend(segs + [e], Separator);
  }

  /** A ".." segment is never removed by the corrected piece rule. */
  lemma PieceKeepsDotDots(segs: seq<PathElement>, piece: string, isFirst: bool, isLast: bool)
    requires Piece(segs, piece, isFirst, isLast).Some?
    ensures DotDots(Piece(segs, piece, isFirst, isLast).value) >= DotDots(segs)
  {
    var n := |segs|;
    if isFirst && n > 0 && segs[n - 1].Segment? {
      DotDotsWithSeparator(segs, Segment(Constant(piece)), isLast);
    } else if piece == "." || piece == "" {
    } else if piece == ".." && Resolvable(segs) {
      var init := segs[..n - 2];
      assert segs[..n - 1] == init + [segs[n - 2]];
      assert segs == (init + [segs[n - 2]]) + [Separator];
      DotDotsAppend(init + [segs[n - 2]], Separator);
      DotDotsAppend(init, segs[n - 2]);
    } else if piece == ".." {
      DotDotsWithSeparator(segs, Segment(Constant("..")), isLast);
    } else {
      DotDotsWithSeparator(segs, Segment(Constant(piece)), isLast);
    }
  }

  lemma {:induction false} PiecesKeepDotDots(segs: seq<PathElement>, pieces: seq<string>, isFirst: bool)
    requires Pieces(segs, pieces, isFirst, true).Some?
    ensures DotDots(Pieces(segs, pieces, isFirst, true).value) >= DotDots(segs)
    decreases |pieces|
  {
    if |pieces| > 0 {
      PieceKeepsDotDots(segs, pieces[0], isFirst, |pieces| == 1);
      var next := Piece(segs, pieces[0], isFirst, |pieces| == 1).value;
      PiecesKeepDotDots(next, pieces[1..], false);
    }
  }

  /** Over a whole concatenation, the corrected walk never removes a ".."
      segment: ".." only cancels a whole segment that is not "..". */
  lemma {:induction false} ElementsKeepDotDots(segs: seq<PathElement>, list: seq<Pattern>)
    requires forall i | 0 <= i < |list| :: SimplePart(list[i])
    requires Elements(segs, list, true).Some?
    ensures DotDots(Elements(segs, list, true).value) >= DotDots(segs)
    decreases |list|
  {
    if |list| > 0 {
      if list[0].Constant? {
        var pieces := Split(list[0].value, '/');
        PiecesKeepDotDots(segs, pieces, true);
        ElementsKeepDotDots(Pieces(segs, pieces, true, true).value, list[1..]);
      } else {
        DotDotsAppend(segs, Segment(list[0]));
        ElementsKeepDotDots(segs + [Segment(list[0])], list[1..]);
      }
    }
  }

  /** A whole constant segment followed by a separator and "..": a pair the
      walk should have resolved. */
  predicate ResolvableAt(segs: seq<PathElement>, i: nat)
    requires i + 2 < |segs|
  {
    && segs[i].Segment? && segs[i].pattern.Constant? && segs[i].pattern.value != ".."
    && segs[i + 1] == Separator
    && segs[i + 2] == Segment(Constant(".."))
    && (i == 0 || segs[i - 1] == Separator)
  }

  predicate FullyResolved(segs: seq<PathElement>) {
    forall i: nat | i + 2 < |segs| :: !ResolvableAt(segs, i)
  }

  lemma PieceResolves(segs: seq<PathElement>, piece: string, isFirst: bool, isLast: bool)
    requires FullyResolved(segs)
    requires Piece(segs, piece, isFirst, isLast).Some?
    ensures FullyResolved(Piece(segs, piece, isFirst, isLast).value)
  {
    var n := |segs|;
    var r := Piece(segs, piece, isFirst, isLast).value;
    if piece == ".." && Resolvable(segs) && !(isFirst && n > 0 && segs[n - 1].Segment?) {
      forall i: nat | i + 2 < |r| ensures !ResolvableAt(r, i) {
        assert !ResolvableAt(segs, i);
      }
    } else if (piece == "." || piece == "") && !(isFirst && n > 0 && segs[n - 1].Segment?) {
    } else {
      forall i: nat | i + 2 < |r| ensures !ResolvableAt(r, i) {
        if i + 2 < n {
          assert !ResolvableAt(segs, i);
        }
      }
    }
  }

  lemma {:induction false} PiecesResolve(segs: seq<PathElement>, pieces: seq<string>, isFirst: bool)
    requires FullyResolved(segs)
    requires Pieces(segs, pieces, isFirst, true).Some?
    ensures FullyResolved(Pieces(segs, pieces, isFirst, true).value)
    decreases |pieces|
  {
    if |pieces| > 0 {
      PieceResolves(segs, pieces[0], isFirst, |pieces| == 1);
      PiecesResolve(Piece(segs, pieces[0], isFirst, |pieces| == 1).value, pieces[1..], false);
    }
  }

  /** The corrected walk leaves no `constant/..` pair unresolved. */
  lemma {:induction false} ElementsResolve(segs: seq<PathElement>, list: seq<Pattern>)
    requires forall i | 0 <= i < |list| :: SimplePart(list[i])
    requires FullyResolved(segs)
    requires Elements(segs, list, true).Some?
    ensures FullyResolved(Elements(segs, list, true).value)
    decreases |list|
  {
    if |list| > 0 {
      if list[0].Constant? {
        var pieces := Split(list[0].value, '/');
        PiecesResolve(segs, pieces, true);
        ElementsResolve(Pieces(segs, pieces, true, true).value, list[1..]);
      } else {
        var next := segs + [Segment(list[0])];
        forall i: nat | i + 2 < |next| ensures !ResolvableAt(next, i) {
          if i + 2 < |segs| {
            assert !ResolvableAt(segs, i);
          }
        }
        ElementsResolve(next, list[1..]);
      }
    }
  }

  /** ".." at the start of a path leaves the root. */
  lemma LeavingRoot(rest: seq<Pattern>)
    requires forall i | 0 <= i < |rest| :: SimplePart(rest[i])
    ensures Elements([], [Constant("../x")] + rest, true) == None
  {
    assert Split("../x", '/') == ["..", "x"] by {
      assert "../x" == ".." + ['/'] + "x";
      SplitFirst("..", "x", '/');
      SplitNone("x", '/');
    }
  }

  /** Finding (lost separator): as written, a constant that starts with "/"
      after a dynamic part loses that "/", because the empty piece before it
      is skipped together with its separator. */
  lemma LostSeparatorAsWritten()
    ensures Elements([], [Constant("src/"), Dynamic, Constant("/x")], false)
      == Some([Segment(Constant("src")), Separator, Segment(Dynamic), Segment(Constant("x"))])
  {
    SplitSrc();
    var list := [Constant("src/"), Dynamic, Constant("/x")];
    var s1 := [Segment(Constant("src")), Separator];
    assert [] + [Segment(Constant("src"))] + [Separator] == s1;
    assert ["src", ""][1..] == [""];
    assert Pieces(s1, [""], false, false) == Some(s1);
    assert Pieces([], ["src", ""], true, false) == Some(s1);
    var s2 := s1 + [Segment(Dynamic)];
    var s3 := s2 + [Segment(Constant("x"))];
    assert ["", "x"][1..] == ["x"];
    assert Pieces(s2, ["x"], false, false) == Some(s3);
    assert Pieces(s2, ["", "x"], true, false) == Some(s3);
    assert list[1..] == [Dynamic, Constant("/x")];
    assert list[1..][1..] == [Constant("/x")];
    assert Elements(s2, [Constant("/x")], false) == Some(s3);
    assert Elements(s1, list[1..], false) == Some(s3);
    assert s3 == [Segment(Constant("src")), Separator, Segment(Dynamic), Segment(Constant("x"))];
  }

  /** The corrected rule keeps the "/": the empty piece ends the segment
      that the dynamic part starts. */
  lemma LostSeparatorCorrected()
    ensures Elements([], [Constant("src/"), Dynamic, Constant("/x")], true)
      == Some([Segment(Constant("src")), Separator, Segment(Dynamic), Segment(Constant("")), Separator,
               Segment(Constant("x"))])
  {
    SplitSrc();
    var list := [Constant("src/"), Dynamic, Constant("/x")];
    var s1 := [Segment(Constant("src")), Separator];
    assert [] + [Segment(Constant("src"))] + [Separator] == s1;
    assert ["src", ""][1..] == [""];
    assert Pieces(s1, [""], false, true) == Some(s1);
    assert Pieces([], ["src", ""], true, true) == Some(s1);
    var s2 := s1 + [Segment(Dynamic)];
    var s3 := s2 + [Segment(Constant(""))] + [Separator];
    var s4 := s3 + [Segment(Constant("x"))];
    assert Piece(s2, "", true, false) == Some(s3);
    assert ["", "x"][1..] == ["x"];
    assert Pieces(s3, ["x"], false, true) == Some(s4);
    assert Pieces(s2, ["", "x"], true, true) == Some(s4);
    assert list[1..] == [Dynamic, Constant("/x")];
    assert list[1..][1..] == [Constant("/x")];
    assert Elements(s2, [Constant("/x")], true) == Some(s4);
    assert Elements(s1, list[1..], true) == Some(s4);
    assert s4 == [Segment(Constant("src")), Separator, Segment(Dynamic), Segment(Constant("")), Separator,
                  Segment(Constant("x"))];
  }

  lemma SplitSrc()
    ensures Split("src/", '/') == ["src", ""]
    ensures Split("/x", '/') == ["", "x"]
  {
    SplitSrcDir();
    SplitIndex();
  }

  lemma SplitSrcDir()
    ensures Split("src/", '/') == ["src", ""]
  {
    assert "src/" == "src" + ['/'] + "";
    SplitFirst("src", "", '/');
    SplitNone("", '/');
  }

  lemma SplitIndex()
    ensures Split("/x", '/') == ["", "x"]
  {
    assert "/x" == "" + ['/'] + "x";
    SplitFirst("", "x", '/');
    SplitNone("x", '/');
  }

  lemma SplitDotDots()
    ensures Split("../..", '/') == ["..", ".."]
  {
    assert "../.." == ".." + ['/'] + "..";
    SplitFirst("..", "..", '/');
    SplitNone("..", '/');
  }

  /** Finding (cancelled ".."): as written, a second ".." after a dynamic
      part removes the first one, so a ".." segment is lost. */
  lemma DotDotCancelsDotDotAsWritten()
    ensures Elements([], [Dynamic, Constant("../..")], false) == Some([Segment(Dynamic)])
    ensures DotDots([Segment(Dynamic)]) < DotDots([Segment(Dynamic), Segment(Constant(".."))])
  {
    SplitDotDots();
    var s := [Segment(Dynamic)];
    assert [] + [Segment(Dynamic)] == s;
    DotDotPiecesAsWritten();
    assert Elements(s, [Constant("../..")], false) == Some(s);
    assert [Dynamic, Constant("../..")][1..] == [Constant("../..")];
    DotDotsAppend([], Segment(Dynamic));
    DotDotsAppend(s, Segment(Constant("..")));
  }

  /** The pieces "..", ".." after a dynamic segment, as written: the second
      removes the first. */
  lemma DotDotPiecesAsWritten()
    ensures Pieces([Segment(Dynamic)], ["..", ".."], true, false) == Some([Segment(Dynamic)])
  {
    var s := [Segment(Dynamic)];
    assert ["..", ".."][1..] == [".."];
    var a := s + [Segment(Constant(".."))] + [Separator];
    assert PieceAsWritten(s, "..", false) == Some(a);
    assert a[..|a| - 2] == s;
    assert Pieces(a, [".."], false, false) == Some(s);
  }

  /** The corrected rule keeps both ".." segments. */
  lemma DotDotCancelsDotDotCorrected()
    ensures Elements([], [Dynamic, Constant("../..")], true)
      == Some([Segment(Dynamic), Segment(Constant("..")), Separator, Segment(Constant(".."))])
  {
    SplitDotDots();
    var s := [Segment(Dynamic)];
    assert [] + [Segment(Dynamic)] == s;
    assert ["..", ".."][1..] == [".."];
    var a := s + [Segment(Constant(".."))] + [Separator];
    var b := a + [Segment(Constant(".."))];
    assert Piece(s, "..", true, false) == Some(a);
    assert !Resolvable(a);
    assert Pieces(a, [".."], false, true) == Some(b);
    assert Pieces(s, ["..", ".."], true, true) == Some(b);
    assert Elements(s, [Constant("../..")], true) == Some(b);
    assert [Dynamic, Constant("../..")][1..] == [Constant("../..")];
    assert b == [Segment(Dynamic), Segment(Constant("..")), Separator, Segment(Constant(".."))];
  }

  // ---------------------------------------------------------------------
  // split_last_segment
  // ---------------------------------------------------------------------

  /** `split_last_segment`: the parent folder and the last segment of a
      path; when the last segment is unknown (after "..") the whole path and
      "". */
  function SplitLastSegment(path: string): (r: (string, string))
    ensures SplitBelow(r, path)
    ensures '/' !in r.1 && r.1 != "." && r.1 != ".."
    decreases |path|
  {
    match RSplitOnce(path, '/')
    case Some((rest, last)) =>
      assert rest <= path by { assert path == rest + ("/" + last); }
      if last == "" || last == "." then
        var r := SplitLastSegment(rest);
        assert SplitBelow(r, path) by { SplitBelowPrefix(r, rest, path); }
        r
      else if last == ".." then
        var parentAndLast := SplitLastSegment(rest);
        if parentAndLast.1 == "" then (path, "")
        else
          var r := SplitLastSegment(parentAndLast.0);
          assert SplitBelow(r, path) by {
            SplitBelowPrefix(r, parentAndLast.0, rest);
            SplitBelowPrefix(r, rest, path);
          }
          r
      else
        assert path == rest + "/" + last;
        (rest, last)
    case None =>
      if path == "" || path == "." then ("", "")
      else if path == ".." then ("..", "")
      else ("", path)
  }

  /** The parent and the last segment of a split lie at the start of `path`. */
  predicate SplitBelow(r: (string, string), path: string) {
    r.0 <= path && (r.1 != "" ==> (r.0 == "" && r.1 <= path) || r.0 + "/" + r.1 <= path)
  }

  lemma SplitBelowPrefix(r: (string, string), p: string, q: string)
    requires SplitBelow(r, p) && p <= q
    ensures SplitBelow(r, q)
  {
    assert q[..|p|] == p;
    if r.1 != "" && r.0 == "" && r.1 <= p {
      assert q[..|r.1|] == p[..|r.1|];
    } else if r.1 != "" {
      var t := r.0 + "/" + r.1;
      assert q[..|t|] == p[..|t|];
    }
  }

  /** A last segment that is neither empty, "." nor ".." is split off as is. */
  lemma SplitLastSegmentPlain(parent: string, last: string)
    requires '/' !in last && last != "" && last != "." && last != ".."
    ensures SplitLastSegment(parent + "/" + last) == (parent, last)
  {
    RSplitOnceLast(parent, last, '/');
  }

  /** An empty or "." last segment is skipped. */
  lemma SplitLastSegmentSkip(path: string, last: string)
    requires last == "" || last == "."
    ensures SplitLastSegment(path + "/" + last) == SplitLastSegment(path)
  {
    RSplitOnceLast(path, last, '/');
  }

  /** A trailing ".." steps over the last segment of the parent. */
  lemma SplitLastSegmentDotDot(parent: string)
    ensures SplitLastSegment(parent + "/..")
      == if SplitLastSegment(parent).1 == "" then (parent + "/..", "")
         else SplitLastSegment(SplitLastSegment(parent).0)
  {
    RSplitOnceLast(parent, "..", '/');
    assert parent + "/" + ".." == parent + "/..";
  }

  /** Cases from the tests of `split_last_segment`: plain segments. */
  lemma SplitLastSegmentPlainExamples()
    ensures SplitLastSegment("a") == ("", "a")
    ensures SplitLastSegment("..") == ("..", "")
    ensures SplitLastSegment("a/b") == ("a", "b")
  {
    assert "a/b" == "a" + "/" + "b";
    SplitLastSegmentPlain("a", "b");
  }

  /** Cases from the tests of `split_last_segment`: a trailing "/". */
  lemma SplitLastSegmentTrailingExample()
    ensures SplitLastSegment("a/b/") == ("a", "b")
  {
    SplitLastSegmentPlainExamples();
    assert "a/b/" == "a/b" + "/" + "";
    SplitLastSegmentSkip("a/b", "");
  }

  /** Cases from the tests of `split_last_segment`: ".." steps over "b". */
  lemma SplitLastSegmentDotDotExample()
    ensures SplitLastSegment("a/b/..") == ("", "a")
  {
    SplitLastSegmentPlainExamples();
    assert "a/b/.." == "a/b" + "/..";
    SplitLastSegmentDotDot("a/b");
  }

  /** Cases from the tests of `split_last_segment`: ".." above the root stays. */
  lemma SplitLastSegmentLeavingExample()
    ensures SplitLastSegment("a/../..") == ("a/../..", "")
  {
    SplitLastSegmentPlainExamples();
    assert "a/.." == "a" + "/..";
    SplitLastSegmentDotDot("a");
    assert SplitLastSegment("") == ("", "");
    assert "a/../.." == "a/.." + "/..";
    SplitLastSegmentDotDot("a/..");
  }
}
