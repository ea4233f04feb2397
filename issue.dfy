/** Issues: severities, styled messages, source ranges of an issue and the
    simplification of import traces shown with it. */
module Issues {
  import opened Wrappers
  import Str = Text
  import opened FsPath
  import opened Ordering

  // ---------------------------------------------------------------------------
  // Severity

  /** Declared from the most to the least important; the derived order
      follows the declaration. */
  datatype IssueSeverity = Bug | Fatal | Error | Warning | Hint | Note | Suggestion | Info

  function Rank(s: IssueSeverity): nat {
    match s
    case Bug => 0
    case Fatal => 1
    case Error => 2
    case Warning => 3
    case Hint => 4
    case Note => 5
    case Suggestion => 6
    case Info => 7
  }

  function SeverityLess(a: IssueSeverity, b: IssueSeverity): bool {
    Rank(a) < Rank(b)
  }

  /** The order is total, `Bug` comes first and `Info` last. */
  lemma SeverityOrder()
    ensures StrictTotal(SeverityLess)
    ensures forall s :: s != Bug ==> SeverityLess(Bug, s)
    ensures forall s :: s != Info ==> SeverityLess(s, Info)
  {
    forall a: IssueSeverity, b: IssueSeverity | a != b
      ensures SeverityLess(a, b) || SeverityLess(b, a)
    {
      assert Rank(a) != Rank(b);
    }
  }

  function AsStr(s: IssueSeverity): (r: string)
    ensures |r| > 0
  {
    match s
    case Bug => "bug"
    case Fatal => "fatal"
    case Error => "error"
    case Warning => "warning"
    case Hint => "hint"
    case Note => "note"
    case Suggestion => "suggestion"
    case Info => "info"
  }

  /** Each severity has its own name. */
  lemma AsStrInjective(a: IssueSeverity, b: IssueSeverity)
    ensures AsStr(a) == AsStr(b) <==> a == b
  {
  }

  // ---------------------------------------------------------------------------
  // Styled text

  datatype StyledString =
    | Line(items: seq<StyledString>)
    | Stack(items: seq<StyledString>)
    | Text(text: string)
    | Code(text: string)
    | Strong(text: string)

  /** The text without styles: Line items side by side, Stack items one per
      line, and the raw text of the leaves. */
  function ToUnstyledString(s: StyledString): (r: string)
    decreases s, 1
  {
    match s
    case Line(items) => Str.Join(UnstyledItems(items), "")
    case Stack(items) => Str.Join(UnstyledItems(items), "\n")
    case Text(t) => t
    case Code(t) => t
    case Strong(t) => t
  }

  function UnstyledItems(items: seq<StyledString>): (r: seq<string>)
    ensures |r| == |items|
    ensures forall i :: 0 <= i < |items| ==> r[i] == ToUnstyledString(items[i])
    decreases items, 0
  {
    if items == [] then [] else [ToUnstyledString(items[0])] + UnstyledItems(items[1..])
  }

  /** Number of characters of the unstyled text, counted independently of the
      rendering: every leaf's text, plus one newline between stacked items. */
  function UnstyledLength(s: StyledString): nat
    decreases s, 1
  {
    match s
    case Line(items) => LengthSum(items)
    case Stack(items) => LengthSum(items) + (if items == [] then 0 else |items| - 1)
    case Text(t) => |t|
    case Code(t) => |t|
    case Strong(t) => |t|
  }

  function LengthSum(items: seq<StyledString>): nat
    decreases items, 0
  {
    if items == [] then 0 else UnstyledLength(items[0]) + LengthSum(items[1..])
  }

  lemma {:induction false} JoinLength(parts: seq<string>, sep: string)
    ensures |Str.Join(parts, sep)| == StringsLength(parts) + (if parts == [] then 0 else (|parts| - 1) * |sep|)
    decreases |parts|
  {
    if |parts| > 1 {
      JoinLength(parts[1..], sep);
    }
  }

  function StringsLength(parts: seq<string>): nat {
    if parts == [] then 0 else |parts[0]| + StringsLength(parts[1..])
  }

  /** The unstyled text has exactly the length of its leaves plus the stack
      separators. */
  lemma {:induction false} ToUnstyledStringLength(s: StyledString)
    ensures |ToUnstyledString(s)| == UnstyledLength(s)
    decreases s, 1
  {
    match s
    case Line(items) =>
      JoinLength(UnstyledItems(items), "");
      ItemsLength(items);
    case Stack(items) =>
      JoinLength(UnstyledItems(items), "\n");
      ItemsLength(items);
    case Text(_) =>
    case Code(_) =>
    case Strong(_) =>
  }

  lemma {:induction false} ItemsLength(items: seq<StyledString>)
    ensures StringsLength(UnstyledItems(items)) == LengthSum(items)
    decreases items, 0
  {
    if items != [] {
      ToUnstyledStringLength(items[0]);
      ItemsLength(items[1..]);
      assert UnstyledItems(items)[1..] == UnstyledItems(items[1..]);
    }
  }

  /** A Stack of single-line texts renders to text whose lines are exactly
      those texts. */
  lemma StackLines(lines: seq<string>)
    requires |lines| >= 1
    requires forall i :: 0 <= i < |lines| ==> '\n' !in lines[i]
    ensures Str.Split(ToUnstyledString(Stack(seq(|lines|, i requires 0 <= i < |lines| => Text(lines[i])))), '\n') == lines
  {
    var items := seq(|lines|, i requires 0 <= i < |lines| => Text(lines[i]));
    assert UnstyledItems(items) == lines;
    Str.SplitJoin(lines, '\n');
  }

  /** A Line renders its items side by side: a Line of two Lines is the
      concatenation of their texts. */
  lemma LineConcatenates(xs: seq<StyledString>, ys: seq<StyledString>)
    ensures ToUnstyledString(Line([Line(xs), Line(ys)]))
      == ToUnstyledString(Line(xs)) + ToUnstyledString(Line(ys))
  {
    var a, b := ToUnstyledString(Line(xs)), ToUnstyledString(Line(ys));
    assert UnstyledItems([Line(xs), Line(ys)]) == [a, b];
    assert Str.Join([a, b], "") == a + "" + Str.Join([b], "");
  }

  // ---------------------------------------------------------------------------
  // Source ranges

  /** A 0-based line and a 0-based column. */
  datatype SourcePos = SourcePos(line: nat, column: nat)

  /** `ByteOffset` positions are 0-based byte offsets. */
  datatype SourceRange = ByteOffset(start: nat, end: nat) | LineColumn(from: SourcePos, to: SourcePos)

  /** `from_swc_offsets`: swc spans are 1-based and 0 means "unknown"; a
      single known end is used for both ends. */
  function FromSwcOffsets(start: nat, end: nat): (r: Option<SourceRange>)
    ensures r.None? <==> start == 0 && end == 0
    ensures start != 0 && end != 0 ==> r == Some(ByteOffset(start - 1, end - 1))
    ensures start != 0 && end == 0 ==> r == Some(ByteOffset(start - 1, start - 1))
    ensures start == 0 && end != 0 ==> r == Some(ByteOffset(end - 1, end - 1))
  {
    match (start == 0, end == 0)
    case (true, true) => None
    case (false, false) => Some(ByteOffset(start - 1, end - 1))
    case (false, true) => Some(ByteOffset(start - 1, start - 1))
    case (true, false) => Some(ByteOffset(end - 1, end - 1))
  }

  /** `to_swc_offsets`: back to 1-based offsets; a line/column range needs the
      lines of the source, and gives nothing when they are unavailable. */
  function ToSwcOffsets(range: Option<SourceRange>, lines: FileLinesContent): (r: Option<(nat, nat)>)
    requires range.Some? && range.value.LineColumn? && lines.Lines? ==>
      range.value.from.line < |lines.lines| && range.value.to.line < |lines.lines|
    ensures r.Some? ==> r.value.0 >= 1 && r.value.1 >= 1
  {
    match range
    case None => None
    case Some(ByteOffset(start, end)) => Some((start + 1, end + 1))
    case Some(LineColumn(start, end)) =>
      if lines.Lines? then
        Some((FindOffset(lines.lines, start) + 1, FindOffset(lines.lines, end) + 1))
      else None
  }

  /** Converting swc offsets and back gives the same offsets when both are known. */
  lemma SwcOffsetsRoundTrip(start: nat, end: nat, lines: FileLinesContent)
    requires start != 0 && end != 0
    ensures ToSwcOffsets(FromSwcOffsets(start, end), lines) == Some((start, end))
  {
  }

  /** With one end unknown, the round trip gives the known end twice. */
  lemma SwcOffsetsOneSided(known: nat, lines: FileLinesContent)
    requires known != 0
    ensures ToSwcOffsets(FromSwcOffsets(known, 0), lines) == Some((known, known))
    ensures ToSwcOffsets(FromSwcOffsets(0, known), lines) == Some((known, known))
  {
  }

  // ---------------------------------------------------------------------------
  // Offsets and lines

  /** Line start offsets strictly increase, as they do for `lines_ref`. */
  ghost predicate Increasing(lines: seq<FileLine>) {
    forall i, j :: 0 <= i < j < |lines| ==> lines[i].bytesOffset < lines[j].bytesOffset
  }

  /** Each line starts one byte (the newline) after the previous one ends. */
  ghost predicate Contiguous(lines: seq<FileLine>) {
    forall i :: 0 <= i < |lines| - 1 ==>
      lines[i + 1].bytesOffset == lines[i].bytesOffset + |lines[i].content| + 1
  }

  /** The lines starting before `offset`, counted from the front. */
  function CountBefore(lines: seq<FileLine>, offset: nat): (r: nat)
    ensures r <= |lines|
    ensures forall j :: 0 <= j < r ==> lines[j].bytesOffset < offset
    ensures r < |lines| ==> lines[r].bytesOffset >= offset
  {
    if lines == [] || lines[0].bytesOffset >= offset then 0
    else 1 + CountBefore(lines[1..], offset)
  }

  /** Result of a binary search: the index of a line starting at the offset,
      or the index at which such a line would be inserted. */
  datatype Search = Found(index: nat) | Insert(index: nat)

  /** `binary_search_by` on the line start offsets. Over increasing offsets
      its result is unique; this is it. */
  function BinarySearch(lines: seq<FileLine>, offset: nat): (r: Search)
    ensures r.index <= |lines|
    ensures r.Found? <==> exists i :: 0 <= i < |lines| && lines[i].bytesOffset == offset && i == CountBefore(lines, offset)
  {
    var k := CountBefore(lines, offset);
    if k < |lines| && lines[k].bytesOffset == offset then Found(k) else Insert(k)
  }

  /** `find_line_and_column`: the line containing `offset` and the column in it. */
  function FindLineAndColumn(lines: seq<FileLine>, offset: nat): (r: SourcePos)
  {
    match BinarySearch(lines, offset)
    case Found(i) => SourcePos(i, 0)
    case Insert(i) =>
      if i == 0 then SourcePos(0, offset)
      else
        var line := lines[i - 1];
        SourcePos(i - 1, Min(|line.content|, offset - line.bytesOffset))
  }

  function Min(a: nat, b: nat): nat { if a <= b then a else b }

  /** `CountBefore` is the one index separating lines before `offset` from
      the others. */
  lemma CountBeforeIs(lines: seq<FileLine>, offset: nat, k: nat)
    requires Increasing(lines)
    requires k <= |lines|
    requires forall j :: 0 <= j < k ==> lines[j].bytesOffset < offset
    requires k < |lines| ==> lines[k].bytesOffset >= offset
    ensures CountBefore(lines, offset) == k
  {
  }

  /** An offset where a line starts is column 0 of that line. */
  lemma FindLineAndColumnAtStart(lines: seq<FileLine>, i: nat)
    requires Increasing(lines) && i < |lines|
    ensures FindLineAndColumn(lines, lines[i].bytesOffset) == SourcePos(i, 0)
  {
    CountBeforeIs(lines, lines[i].bytesOffset, i);
  }

  /** An offset before the first line is on line 0, at the offset as column. */
  lemma FindLineAndColumnBefore(lines: seq<FileLine>, offset: nat)
    requires lines == [] || offset < lines[0].bytesOffset
    ensures FindLineAndColumn(lines, offset) == SourcePos(0, offset)
  {
  }

  /** Inside a line (after its start, before the next line starts) the
      column is the distance from the line start, clamped to the line length. */
  lemma FindLineAndColumnWithin(lines: seq<FileLine>, i: nat, offset: nat)
    requires Increasing(lines) && i < |lines|
    requires lines[i].bytesOffset < offset
    requires i + 1 < |lines| ==> offset < lines[i + 1].bytesOffset
    ensures FindLineAndColumn(lines, offset)
      == SourcePos(i, Min(|lines[i].content|, offset - lines[i].bytesOffset))
  {
    CountBeforeIs(lines, offset, i + 1);
  }

  /** `find_offset`: the byte offset of a line and column. */
  function FindOffset(lines: seq<FileLine>, pos: SourcePos): (r: nat)
    requires pos.line < |lines|
    ensures r >= lines[pos.line].bytesOffset
  {
    lines[pos.line].bytesOffset + pos.column
  }

  /** Contiguous lines have increasing offsets. */
  lemma {:induction false} ContiguousIncreasing(lines: seq<FileLine>)
    requires Contiguous(lines)
    ensures Increasing(lines)
  {
    forall i, j | 0 <= i < j < |lines|
      ensures lines[i].bytesOffset < lines[j].bytesOffset
    {
      ContiguousStep(lines, i, j);
    }
  }

  lemma {:induction false} ContiguousStep(lines: seq<FileLine>, i: nat, j: nat)
    requires Contiguous(lines) && i < j < |lines|
    ensures lines[i].bytesOffset < lines[j].bytesOffset
    decreases j - i
  {
    if i + 1 < j {
      ContiguousStep(lines, i + 1, j);
    }
  }

  /** Every offset within the text of contiguous lines (from the first line's
      start to the end of the last line) maps to a line and column that
      `find_offset` turns back into the same offset. */
  lemma FindOffsetRoundTrip(lines: seq<FileLine>, offset: nat)
    requires Contiguous(lines) && |lines| >= 1
    requires lines[0].bytesOffset <= offset
    requires offset <= lines[|lines| - 1].bytesOffset + |lines[|lines| - 1].content|
    ensures FindLineAndColumn(lines, offset).line < |lines|
    ensures FindOffset(lines, FindLineAndColumn(lines, offset)) == offset
  {
    ContiguousIncreasing(lines);
    var k := CountBefore(lines, offset);
    if k < |lines| && lines[k].bytesOffset == offset {
      FindLineAndColumnAtStart(lines, k);
    } else {
      assert k >= 1;
      var i := k - 1;
      FindLineAndColumnWithin(lines, i, offset);
      if i + 1 < |lines| {
        assert offset < lines[i + 1].bytesOffset;
      }
    }
  }

  /** The lines computed by `lines_ref` are contiguous and start at 0. */
  lemma {:induction false} LinesFromContiguous(parts: seq<string>, offset: nat)
    ensures Contiguous(LinesFrom(parts, offset))
    ensures parts != [] ==> LinesFrom(parts, offset)[0].bytesOffset == offset
    decreases |parts|
  {
    if |parts| > 1 {
      LinesFromContiguous(parts[1..], offset + |parts[0]| + 1);
    }
  }

  /** Every offset of a text, up to its length, survives the conversion to
      line and column over the text's own lines and back. */
  lemma TextOffsetRoundTrip(text: string, offset: nat)
    requires offset <= |text|
    ensures var lines := LinesFrom(Str.Split(text, '\n'), 0);
      FindLineAndColumn(lines, offset).line < |lines| &&
      FindOffset(lines, FindLineAndColumn(lines, offset)) == offset
  {
    var parts := Str.Split(text, '\n');
    var lines := LinesFrom(parts, 0);
    LinesFromContiguous(parts, 0);
    var n := |parts| - 1;
    LinesFromOffsets(parts, 0, n);
    JoinEnd(parts);
    FindOffsetRoundTrip(lines, offset);
  }

  /** The last line of a joined text ends where the text ends. */
  lemma JoinEnd(parts: seq<string>)
    requires |parts| >= 1
    ensures OffsetAfter(parts[..|parts| - 1]) + |parts[|parts| - 1]| == |Str.Join(parts, "\n")|
  {
    JoinLength(parts, "\n");
    OffsetAfterLength(parts[..|parts| - 1]);
    StringsLengthSnoc(parts[..|parts| - 1], parts[|parts| - 1]);
    assert parts[..|parts| - 1] + [parts[|parts| - 1]] == parts;
  }

  lemma {:induction false} OffsetAfterLength(parts: seq<string>)
    ensures OffsetAfter(parts) == StringsLength(parts) + |parts|
    decreases |parts|
  {
    if parts != [] {
      var init := parts[..|parts| - 1];
      OffsetAfterLength(init);
      StringsLengthSnoc(init, parts[|parts| - 1]);
      assert init + [parts[|parts| - 1]] == parts;
    }
  }

  lemma {:induction false} StringsLengthSnoc(parts: seq<string>, last: string)
    ensures StringsLength(parts + [last]) == StringsLength(parts) + |last|
    decreases |parts|
  {
    if parts != [] {
      StringsLengthSnoc(parts[1..], last);
      assert (parts + [last])[1..] == parts[1..] + [last];
    }
  }

  // ---------------------------------------------------------------------------
  // Import traces

  /** A module in an import trace, reduced to what is displayed. */
  datatype PlainTraceItem = PlainTraceItem(fsName: string, rootPath: string, path: string, layer: Option<string>)

  /** An asset ident of a trace; the displayed item is what
      `PlainTraceItem::from_asset_ident` reads from it. */
  datatype AssetIdent = AssetIdent(item: PlainTraceItem, nestedAssets: nat)

  type PlainTrace = seq<PlainTraceItem>

  /** The derived field-by-field order of trace items, `None` layers first. */
  function ItemKey(x: PlainTraceItem): seq<string> {
    [x.fsName, x.rootPath, x.path] + (if x.layer.None? then [] else [x.layer.value])
  }

  function ItemLess(a: PlainTraceItem, b: PlainTraceItem): bool {
    LexLess(ItemKey(a), ItemKey(b), StringLess)
  }

  /** Shorter traces first, then the lexicographic order of the items. */
  function TraceLess(a: PlainTrace, b: PlainTrace): bool {
    |a| < |b| || (|a| == |b| && LexLess(a, b, ItemLess))
  }

  lemma ItemKeyInjective(a: PlainTraceItem, b: PlainTraceItem)
    requires ItemKey(a) == ItemKey(b)
    ensures a == b
  {
    assert ItemKey(a)[0] == ItemKey(b)[0] && ItemKey(a)[1] == ItemKey(b)[1] && ItemKey(a)[2] == ItemKey(b)[2];
    assert a.layer.None? <==> |ItemKey(a)| == 3;
    if a.layer.Some? {
      assert ItemKey(a)[3] == ItemKey(b)[3];
    }
  }

  lemma ItemLessStrictTotal()
    ensures StrictTotal(ItemLess)
  {
    StringLessStrictTotal();
    forall a: PlainTraceItem ensures !ItemLess(a, a) {
      LexIrreflexive(ItemKey(a), StringLess);
    }
    forall a: PlainTraceItem, b: PlainTraceItem, c: PlainTraceItem | ItemLess(a, b) && ItemLess(b, c)
      ensures ItemLess(a, c)
    {
      LexTransitive(ItemKey(a), ItemKey(b), ItemKey(c), StringLess);
    }
    forall a: PlainTraceItem, b: PlainTraceItem | a != b ensures ItemLess(a, b) || ItemLess(b, a) {
      if ItemKey(a) == ItemKey(b) {
        ItemKeyInjective(a, b);
      }
      LexTotal(ItemKey(a), ItemKey(b), StringLess);
    }
  }

  /** The trace order is a strict total order, so the sort is deterministic. */
  lemma TraceLessStrictTotal()
    ensures StrictTotal(TraceLess)
  {
    ItemLessStrictTotal();
    forall a: PlainTrace ensures !TraceLess(a, a) {
      LexIrreflexive(a, ItemLess);
    }
    forall a: PlainTrace, b: PlainTrace, c: PlainTrace | TraceLess(a, b) && TraceLess(b, c)
      ensures TraceLess(a, c)
    {
      if |a| == |b| == |c| {
        LexTransitive(a, b, c, ItemLess);
      }
    }
    forall a: PlainTrace, b: PlainTrace | a != b ensures TraceLess(a, b) || TraceLess(b, a) {
      LexTotal(a, b, ItemLess);
    }
  }

  /** `ends_with` on slices. */
  predicate SeqEndsWith<T(==)>(a: seq<T>, b: seq<T>) {
    |b| <= |a| && a[|a| - |b|..] == b
  }

  lemma SeqEndsWithTransitive<T>(a: seq<T>, b: seq<T>, c: seq<T>)
    requires SeqEndsWith(a, b) && SeqEndsWith(b, c)
    ensures SeqEndsWith(a, c)
  {
    assert a[|a| - |c|..] == a[|a| - |b|..][|b| - |c|..];
  }

  /** The displayed items of a trace, skipping synthetic modules (those with
      nested assets). */
  function Displayed(trace: seq<AssetIdent>): (r: PlainTrace)
    ensures |r| <= |trace|
    ensures forall x :: x in r <==> exists a :: a in trace && a.nestedAssets == 0 && a.item == x
  {
    if trace == [] then []
    else
      var rest := Displayed(trace[1..]);
      assert forall a :: a in trace[1..] ==> a in trace;
      assert forall a :: a in trace ==> a == trace[0] || a in trace[1..];
      if trace[0].nestedAssets == 0 then [trace[0].item] + rest else rest
  }

  predicate NoAdjacentDuplicates<T(==)>(s: seq<T>) {
    forall i :: 0 <= i < |s| - 1 ==> s[i] != s[i + 1]
  }

  /** `Vec::dedup`: each run of equal consecutive elements kept once. */
  function Dedup<T(==,!new)>(s: seq<T>): (r: seq<T>)
    ensures |r| <= |s|
    ensures s != [] ==> r != [] && r[0] == s[0]
    ensures forall x :: x in r <==> x in s
    ensures NoAdjacentDuplicates(r)
  {
    if |s| <= 1 then s
    else if s[0] == s[1] then Dedup(s[1..])
    else
      assert forall x :: x in s <==> x == s[0] || x in s[1..];
      [s[0]] + Dedup(s[1..])
  }

  /** A sequence without repeated neighbours is left as it is. */
  lemma {:induction false} DedupIdempotent<T(!new)>(s: seq<T>)
    requires NoAdjacentDuplicates(s)
    ensures Dedup(s) == s
  {
    if |s| > 1 {
      DedupIdempotent(s[1..]);
      assert s == [s[0]] + s[1..];
    }
  }

  /** `Vec::retain(|t| t.len() > 1)`. */
  function LongTraces(traces: seq<PlainTrace>): (r: seq<PlainTrace>)
    ensures forall t :: t in r <==> t in traces && |t| > 1
    ensures multiset(r) <= multiset(traces)
  {
    if traces == [] then []
    else
      var rest := LongTraces(traces[1..]);
      assert traces == [traces[0]] + traces[1..];
      if |traces[0]| > 1 then [traces[0]] + rest else rest
  }

  /** The traces after simplification, filtering and sorting, before
      overlapping traces are removed. */
  function Candidates(traces: seq<seq<AssetIdent>>): (r: seq<PlainTrace>)
  {
    var simplified := seq(|traces|, i requires 0 <= i < |traces| => Dedup(Displayed(traces[i])));
    SortBy(LongTraces(simplified), TraceLess)
  }

  /** The candidates are in the trace order. */
  lemma CandidatesSorted(traces: seq<seq<AssetIdent>>)
    ensures Sorted(Candidates(traces), TraceLess)
  {
    TraceLessStrictTotal();
    var simplified := seq(|traces|, i requires 0 <= i < |traces| => Dedup(Displayed(traces[i])));
    SortBySorted(LongTraces(simplified), TraceLess);
  }

  /** Each candidate is one input trace, simplified, and is longer than one item. */
  lemma CandidateFrom(traces: seq<seq<AssetIdent>>, t: PlainTrace)
    requires t in Candidates(traces)
    ensures |t| > 1
    ensures exists i :: 0 <= i < |traces| && t == Dedup(Displayed(traces[i]))
  {
    var simplified := seq(|traces|, i requires 0 <= i < |traces| => Dedup(Displayed(traces[i])));
    assert t in multiset(Candidates(traces));
    assert t in multiset(LongTraces(simplified));
    assert t in LongTraces(simplified);
    var i :| 0 <= i < |simplified| && simplified[i] == t;
  }

  /** Candidates hold no repeated neighbours and only items of modules
      without nested assets. */
  lemma CandidatesShape(traces: seq<seq<AssetIdent>>, t: PlainTrace, x: PlainTraceItem)
    requires t in Candidates(traces)
    ensures |t| > 1 && NoAdjacentDuplicates(t)
    ensures x in t ==> exists i, a :: 0 <= i < |traces| && a in traces[i] && a.nestedAssets == 0 && a.item == x
  {
    CandidateFrom(traces, t);
    var i :| 0 <= i < |traces| && t == Dedup(Displayed(traces[i]));
  }

  /** `into_plain_trace`. */
  method IntoPlainTrace(traces: seq<seq<AssetIdent>>) returns (r: seq<PlainTrace>)
    ensures Sorted(r, TraceLess)
    ensures multiset(r) <= multiset(Candidates(traces))
    ensures forall p, q :: 0 <= p < q < |r| ==> !SeqEndsWith(r[q], r[p])
    ensures forall t :: t in Candidates(traces) ==> exists k :: 0 <= k < |r| && SeqEndsWith(t, r[k])
  {
    var plainTraces := seq(|traces|, i requires 0 <= i < |traces| => Dedup(Displayed(traces[i])));
    var sorted := SortBy(LongTraces(plainTraces), TraceLess);
    CandidatesSorted(traces);
    r := RemoveOverlaps(sorted);
  }

  /** The nested loops of `into_plain_trace`: each trace removes the later
      traces that end with it. */
  method RemoveOverlaps(sorted: seq<PlainTrace>) returns (r: seq<PlainTrace>)
    requires Sorted(sorted, TraceLess)
    ensures Sorted(r, TraceLess)
    ensures multiset(r) <= multiset(sorted)
    ensures forall p, q :: 0 <= p < q < |r| ==> !SeqEndsWith(r[q], r[p])
    ensures forall t :: t in sorted ==> exists k :: 0 <= k < |r| && SeqEndsWith(t, r[k])
  {
    r := sorted;
    forall t | t in sorted ensures exists k :: 0 <= k < |r| && SeqEndsWith(t, r[k]) {
      var k :| 0 <= k < |r| && r[k] == t;
      assert SeqEndsWith(t, r[k]);
    }
    if |r| > 1 {
      var i := 0;
      while i < |r| - 1
        decreases |r| - 1 - i
        invariant 1 <= |r|
        invariant i <= |r|
        invariant Sorted(r, TraceLess)
        invariant multiset(r) <= multiset(sorted)
        invariant forall p, q :: 0 <= p < i && p < q < |r| ==> !SeqEndsWith(r[q], r[p])
        invariant forall t :: t in sorted ==> exists k :: 0 <= k < |r| && SeqEndsWith(t, r[k])
      {
        r := RemoveEndingWith(r, i, sorted);
        i := i + 1;
      }
    }
  }

  /** The inner loop of `into_plain_trace`: from the back, every later trace
      that ends with the trace at `i` is removed. */
  method RemoveEndingWith(r0: seq<PlainTrace>, i: nat, ghost sorted: seq<PlainTrace>) returns (r: seq<PlainTrace>)
    requires i < |r0|
    requires Sorted(r0, TraceLess)
    requires multiset(r0) <= multiset(sorted)
    requires forall p, q :: 0 <= p < i && p < q < |r0| ==> !SeqEndsWith(r0[q], r0[p])
    requires forall t :: t in sorted ==> exists k :: 0 <= k < |r0| && SeqEndsWith(t, r0[k])
    ensures i < |r| <= |r0|
    ensures Sorted(r, TraceLess)
    ensures multiset(r) <= multiset(sorted)
    ensures forall p, q :: 0 <= p <= i && p < q < |r| ==> !SeqEndsWith(r[q], r[p])
    ensures forall t :: t in sorted ==> exists k :: 0 <= k < |r| && SeqEndsWith(t, r[k])
  {
    r := r0;
    var j := |r| - 1;
    while j > i
      invariant i <= j < |r| <= |r0|
      invariant Sorted(r, TraceLess)
      invariant multiset(r) <= multiset(sorted)
      invariant forall p, q :: 0 <= p < i && p < q < |r| ==> !SeqEndsWith(r[q], r[p])
      invariant forall q :: j < q < |r| ==> !SeqEndsWith(r[q], r[i])
      invariant forall t :: t in sorted ==> exists k :: 0 <= k < |r| && SeqEndsWith(t, r[k])
    {
      if SeqEndsWith(r[j], r[i]) {
        r := RemoveAt(r, i, j, sorted);
      }
      j := j - 1;
    }
  }

  /** `Vec::remove(j)` of a trace that ends with the trace at `i`: everything
      the loop maintains survives the removal. */
  method RemoveAt(r: seq<PlainTrace>, i: nat, j: nat, ghost sorted: seq<PlainTrace>) returns (r': seq<PlainTrace>)
    requires i < j < |r|
    requires SeqEndsWith(r[j], r[i])
    requires Sorted(r, TraceLess)
    requires multiset(r) <= multiset(sorted)
    requires forall p, q :: 0 <= p < i && p < q < |r| ==> !SeqEndsWith(r[q], r[p])
    requires forall q :: j < q < |r| ==> !SeqEndsWith(r[q], r[i])
    requires forall t :: t in sorted ==> exists k :: 0 <= k < |r| && SeqEndsWith(t, r[k])
    ensures r' == r[..j] + r[j + 1..]
    ensures |r'| == |r| - 1
    ensures Sorted(r', TraceLess)
    ensures multiset(r') <= multiset(sorted)
    ensures forall p, q :: 0 <= p < i && p < q < |r'| ==> !SeqEndsWith(r'[q], r'[p])
    ensures forall q :: j - 1 < q < |r'| ==> !SeqEndsWith(r'[q], r'[i])
    ensures forall t :: t in sorted ==> exists k :: 0 <= k < |r'| && SeqEndsWith(t, r'[k])
  {
    r' := r[..j] + r[j + 1..];
    assert r == r[..j] + [r[j]] + r[j + 1..];
    assert forall k :: 0 <= k < j ==> r'[k] == r[k];
    assert forall k :: j <= k < |r'| ==> r'[k] == r[k + 1];
    forall t | t in sorted ensures exists k :: 0 <= k < |r'| && SeqEndsWith(t, r'[k]) {
      var k :| 0 <= k < |r| && SeqEndsWith(t, r[k]);
      if k < j {
        assert SeqEndsWith(t, r'[k]);
      } else if k == j {
        SeqEndsWithTransitive(t, r[j], r[i]);
        assert SeqEndsWith(t, r'[i]);
      } else {
        assert SeqEndsWith(t, r'[k - 1]);
      }
    }
  }
}
