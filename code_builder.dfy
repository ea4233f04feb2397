/** turbopack-core's `CodeBuilder`: output code assembled piece by piece,
    with a list of mappings from byte offsets to the source map of the code
    that starts there, and the sections of the sectioned ("index") source map
    of Source Map Revision 3 derived from them. Code is its bytes, one
    character each, and a source map is its text. */
module CodeBuilding {
  import opened Wrappers

  /** A byte offset in the code and the source map of the code from there;
      `None` ends the previous section. */
  type Mapping = (nat, Option<string>)

  /** `Code`: built code and its mappings. */
  datatype Code = Code(code: string, mappings: seq<Mapping>, shouldGenerateDebugId: bool)

  /** The mappings of code of length `len`: they never start with an empty
      map, never hold two empty maps in a row, and their offsets are
      non-decreasing and within the code. */
  predicate MappingsValid(ms: seq<Mapping>, len: nat) {
    && (|ms| > 0 ==> ms[0].1.Some?)
    && (forall i :: 0 <= i < |ms| - 1 ==> ms[i].1.Some? || ms[i + 1].1.Some?)
    && (forall i, j :: 0 <= i <= j < |ms| ==> ms[i].0 <= ms[j].0)
    && (forall i :: 0 <= i < |ms| ==> ms[i].0 <= len)
  }

  predicate CodeValid(c: Code) {
    MappingsValid(c.mappings, |c.code|)
  }

  /** `Code::has_source_map`. */
  predicate CodeHasSourceMap(c: Code) {
    c.mappings != []
  }

  // ---------------------------------------------------------------------------
  // The mapping list

  /** `push_map` on the mapping list of code of length `len`: nothing is
      recorded when mappings are not collected, and an empty map is dropped
      at the start or after another empty map. */
  function PushedMap(mappings: Option<seq<Mapping>>, len: nat, sourceMap: Option<string>): (r: Option<seq<Mapping>>)
    ensures r.None? <==> mappings.None?
    ensures mappings.Some? && sourceMap.Some? ==> r == Some(mappings.value + [(len, sourceMap)])
    ensures mappings.Some? && sourceMap.None? ==>
      r == if mappings.value == [] || mappings.value[|mappings.value| - 1].1.None? then mappings
           else Some(mappings.value + [(len, None)])
  {
    match mappings
    case None => None
    case Some(ms) =>
      if sourceMap.None? && (ms == [] || ms[|ms| - 1].1.None?) then mappings
      else Some(ms + [(len, sourceMap)])
  }

  /** The mappings of prebuilt code moved behind `len` bytes of code. */
  function Shift(ms: seq<Mapping>, len: nat): (r: seq<Mapping>)
    ensures |r| == |ms|
    ensures forall i :: 0 <= i < |ms| ==> r[i] == (ms[i].0 + len, ms[i].1)
  {
    seq(|ms|, i requires 0 <= i < |ms| => (ms[i].0 + len, ms[i].1))
  }

  /** `push_code` on the mapping list of code of length `len`. */
  function PushedCode(mappings: Option<seq<Mapping>>, len: nat, prebuilt: seq<Mapping>): (r: Option<seq<Mapping>>)
  {
    if prebuilt == [] then PushedMap(mappings, len, None)
    else
      var ended := if prebuilt[0].0 > 0 then PushedMap(mappings, len, None) else mappings;
      match ended
      case None => None
      case Some(ms) => Some(ms + Shift(prebuilt, len))
  }

  /** Pushing a map keeps the mapping list valid, and the new mapping lies at
      the end of the code. */
  lemma PushMapKeepsValid(ms: seq<Mapping>, len: nat, sourceMap: Option<string>)
    requires MappingsValid(ms, len)
    ensures MappingsValid(PushedMap(Some(ms), len, sourceMap).value, len)
  {
  }

  /** Valid mappings followed by the valid mappings of code placed at their
      end are valid for both pieces of code together. */
  lemma ConcatMappingsValid(a: seq<Mapping>, len: nat, b: seq<Mapping>, blen: nat)
    requires MappingsValid(a, len) && MappingsValid(b, blen)
    ensures MappingsValid(a + Shift(b, len), len + blen)
  {
    var r := a + Shift(b, len);
    forall i | 0 <= i < |r| - 1 ensures r[i].1.Some? || r[i + 1].1.Some? {
      if i + 1 == |a| {
        assert r[i + 1] == (b[0].0 + len, b[0].1);
      } else if i >= |a| {
        assert r[i] == (b[i - |a|].0 + len, b[i - |a|].1);
        assert r[i + 1] == (b[i + 1 - |a|].0 + len, b[i + 1 - |a|].1);
      }
    }
    forall i, j | 0 <= i <= j < |r| ensures r[i].0 <= r[j].0 {
      if j < |a| {
      } else if i < |a| {
        assert r[i].0 <= len;
      } else {
        assert b[i - |a|].0 <= b[j - |a|].0;
      }
    }
  }

  /** Pushing prebuilt valid code keeps the mapping list valid: the prebuilt
      list starts with a map, so no two empty maps meet at the seam. */
  lemma PushCodeKeepsValid(ms: seq<Mapping>, len: nat, prebuilt: Code)
    requires MappingsValid(ms, len) && CodeValid(prebuilt)
    ensures MappingsValid(PushedCode(Some(ms), len, prebuilt.mappings).value, len + |prebuilt.code|)
  {
    PushMapKeepsValid(ms, len, None);
    if prebuilt.mappings != [] {
      var ended := if prebuilt.mappings[0].0 > 0 then PushedMap(Some(ms), len, None).value else ms;
      ConcatMappingsValid(ended, len, prebuilt.mappings, |prebuilt.code|);
    }
  }

  /** Pushed prebuilt mappings keep their maps and are moved by the length of
      the code before them. */
  lemma PushCodeShifts(ms: seq<Mapping>, len: nat, prebuilt: seq<Mapping>, i: nat)
    requires i < |prebuilt|
    ensures var r := PushedCode(Some(ms), len, prebuilt).value;
      |r| >= |prebuilt| && r[|r| - |prebuilt| + i] == (prebuilt[i].0 + len, prebuilt[i].1)
  {
  }

  // ---------------------------------------------------------------------------
  // The builder

  /** `CodeBuilder`: the code so far, the mappings if they are collected, and
      whether a debug id is generated for the built code. */
  class CodeBuilder {
    var code: string
    var mappings: Option<seq<Mapping>>
    var shouldGenerateDebugId: bool

    predicate Valid()
      reads this
    {
      mappings.Some? ==> MappingsValid(mappings.value, |code|)
    }

    /** `CodeBuilder::default`: collects mappings, no debug id. */
    constructor Default()
      ensures code == "" && mappings == Some([]) && !shouldGenerateDebugId
      ensures Valid()
    {
      code := "";
      mappings := Some([]);
      shouldGenerateDebugId := false;
    }

    /** `CodeBuilder::new`. */
    constructor (collectMappings: bool, shouldGenerateDebugId: bool)
      ensures code == "" && this.shouldGenerateDebugId == shouldGenerateDebugId
      ensures mappings == if collectMappings then Some([]) else None
      ensures Valid()
    {
      code := "";
      mappings := if collectMappings then Some([]) else None;
      this.shouldGenerateDebugId := shouldGenerateDebugId;
    }

    /** `push_map`: records where the next code's map starts. */
    method PushMap(sourceMap: Option<string>)
      requires Valid()
      modifies this
      ensures Valid()
      ensures code == old(code) && shouldGenerateDebugId == old(shouldGenerateDebugId)
      ensures mappings == PushedMap(old(mappings), |old(code)|, sourceMap)
    {
      if mappings.None? {
        return;
      }
      var ms := mappings.value;
      if sourceMap.None? && (ms == [] || ms[|ms| - 1].1.None?) {
        return;
      }
      PushMapKeepsValid(ms, |code|, sourceMap);
      mappings := Some(ms + [(|code|, sourceMap)]);
    }

    /** `push_static_bytes`, also behind `+=` and `write`: synthetic code
        without a map. */
    method PushStaticBytes(bytes: string)
      requires Valid()
      modifies this
      ensures Valid()
      ensures code == old(code) + bytes && shouldGenerateDebugId == old(shouldGenerateDebugId)
      ensures mappings == PushedMap(old(mappings), |old(code)|, None)
    {
      PushMap(None);
      code := code + bytes;
    }

    /** `push_source`: user code with its source map, if there is one. */
    method PushSource(source: string, sourceMap: Option<string>)
      requires Valid()
      modifies this
      ensures Valid()
      ensures code == old(code) + source && shouldGenerateDebugId == old(shouldGenerateDebugId)
      ensures mappings == PushedMap(old(mappings), |old(code)|, sourceMap)
    {
      PushMap(sourceMap);
      code := code + source;
    }

    /** `push_code`: copies built code, moving its mappings behind the code so far. */
    method PushCode(prebuilt: Code)
      requires Valid() && CodeValid(prebuilt)
      modifies this
      ensures Valid()
      ensures code == old(code) + prebuilt.code && shouldGenerateDebugId == old(shouldGenerateDebugId)
      ensures mappings == PushedCode(old(mappings), |old(code)|, prebuilt.mappings)
    {
      if prebuilt.mappings != [] {
        if prebuilt.mappings[0].0 > 0 {
          PushMap(None);
        }
        var len := |code|;
        if mappings.Some? {
          PushCodeKeepsValid(old(mappings).value, len, prebuilt);
          mappings := Some(mappings.value + Shift(prebuilt.mappings, len));
        }
      } else {
        PushMap(None);
      }
      code := code + prebuilt.code;
    }

    /** `CodeBuilder::has_source_map`. */
    function HasSourceMap(): (r: bool)
      reads this
      ensures r <==> mappings.Some? && mappings.value != []
    {
      mappings.Some? && mappings.value != []
    }

    /** `build`: the code, its mappings (none when not collected) and the
        debug-id flag. */
    method Build() returns (c: Code)
      requires Valid()
      ensures c == Code(code, mappings.GetOr([]), shouldGenerateDebugId)
      ensures CodeValid(c)
      ensures CodeHasSourceMap(c) <==> HasSourceMap()
    {
      c := Code(code, if mappings.Some? then mappings.value else [], shouldGenerateDebugId);
    }
  }

  /** `From<Code> for CodeBuilder`. */
  method FromCode(c: Code) returns (b: CodeBuilder)
    requires CodeValid(c)
    ensures fresh(b) && b.Valid()
    ensures b.code == c.code && !b.shouldGenerateDebugId
    ensures b.mappings == PushedCode(Some([]), 0, c.mappings)
  {
    b := new CodeBuilder.Default();
    b.PushCode(c);
  }

  /** A builder that does not collect mappings records nothing, whatever is
      pushed, and so has no source map. */
  lemma NotCollectingRecordsNothing(len: nat, sourceMap: Option<string>, prebuilt: seq<Mapping>)
    ensures PushedMap(None, len, sourceMap) == None
    ensures PushedCode(None, len, prebuilt) == None
  {
  }

  /** Pushing a map records it at the current end of the code. */
  lemma PushMapRecordsAtEnd(ms: seq<Mapping>, len: nat, sourceMap: string)
    ensures var r := PushedMap(Some(ms), len, Some(sourceMap)).value; r[|r| - 1] == (len, Some(sourceMap)) && r[..|ms|] == ms
  {
  }

  // ---------------------------------------------------------------------------
  // Sections of the source map

  /** A zero-based line and column in the code. */
  datatype Position = Position(line: nat, column: nat)

  predicate PositionLe(a: Position, b: Position) {
    a.line < b.line || (a.line == b.line && a.column <= b.column)
  }

  /** `SourcePos::update`: a newline starts the next line, any other byte
      moves one column on. */
  function Advance(p: Position, bytes: string): (r: Position)
    ensures PositionLe(p, r)
    decreases |bytes|
  {
    if bytes == [] then p
    else Advance(if bytes[0] == '\n' then Position(p.line + 1, 0) else Position(p.line, p.column + 1), bytes[1..])
  }

  lemma {:induction false} AdvanceConcat(p: Position, a: string, b: string)
    ensures Advance(p, a + b) == Advance(Advance(p, a), b)
    decreases |a|
  {
    if a != [] {
      assert (a + b)[0] == a[0];
      assert (a + b)[1..] == a[1..] + b;
      AdvanceConcat(if a[0] == '\n' then Position(p.line + 1, 0) else Position(p.line, p.column + 1), a[1..], b);
    } else {
      assert a + b == b;
    }
  }

  /** The first line is line 1 when a debug-id line is prepended, else line 0. */
  function Start(debugId: Option<string>): Position {
    Position(if debugId.Some? then 1 else 0, 0)
  }

  /** The position of byte `k` of the code. */
  function PositionAt(code: string, start: Position, k: nat): Position
    requires k <= |code|
  {
    Advance(start, code[..k])
  }

  lemma PositionAtMonotone(code: string, start: Position, k: nat, l: nat)
    requires k <= l <= |code|
    ensures PositionLe(PositionAt(code, start, k), PositionAt(code, start, l))
  {
    assert code[..l] == code[..k] + code[k..l];
    AdvanceConcat(start, code[..k], code[k..l]);
  }

  /** The map of a section: a given source map, or the empty one that ends the
      previous section. */
  datatype SectionMap = Given(sourceMap: string) | EmptyMap

  type Section = (Position, SectionMap)

  /** The section one mapping contributes: its map at its position, or, for
      an empty map, the empty map unless it falls at a line start or right
      before a newline. */
  function SectionOf(code: string, start: Position, m: Mapping): (r: seq<Section>)
    requires m.0 <= |code|
    ensures forall i :: 0 <= i < |r| ==> r[i].0 == PositionAt(code, start, m.0)
  {
    var pos := PositionAt(code, start, m.0);
    match m.1
    case Some(sourceMap) => [(pos, Given(sourceMap))]
    case None =>
      if pos.column != 0 && m.0 < |code| && code[m.0] != '\n' then [(pos, EmptyMap)] else []
  }

  predicate OffsetsWithin(ms: seq<Mapping>, len: nat) {
    forall i :: 0 <= i < |ms| ==> ms[i].0 <= len
  }

  /** The sections of the mappings, in order. */
  function Sections(code: string, start: Position, ms: seq<Mapping>): (r: seq<Section>)
    requires OffsetsWithin(ms, |code|)
    ensures |r| <= |ms|
  {
    if ms == [] then []
    else Sections(code, start, ms[..|ms| - 1]) + SectionOf(code, start, ms[|ms| - 1])
  }

  /** The generated source map: a lone section at the very start without a
      debug id is the map itself; anything else is a sectioned map. */
  datatype GeneratedMap = Single(sourceMap: SectionMap) | Sectioned(sections: seq<Section>, debugId: Option<string>)

  function GenerateSourceMap(c: Code, debugId: Option<string>): GeneratedMap
    requires OffsetsWithin(c.mappings, |c.code|)
  {
    var sections := Sections(c.code, Start(debugId), c.mappings);
    if |sections| == 1 && sections[0].0 == Position(0, 0) && debugId.None? then Single(sections[0].1)
    else Sectioned(sections, debugId)
  }

  /** `generate_source_map_ref`: walks the code once, mapping by mapping. */
  method GenerateSourceMapRef(c: Code, debugId: Option<string>) returns (r: GeneratedMap)
    requires CodeValid(c)
    ensures r == GenerateSourceMap(c, debugId)
  {
    var start := Start(debugId);
    var pos := start;
    var lastBytePos := 0;
    var read := 0;
    var sections: seq<Section> := [];
    for idx := 0 to |c.mappings|
      invariant read == lastBytePos <= |c.code|
      invariant idx > 0 ==> lastBytePos == c.mappings[idx - 1].0
      invariant idx == 0 ==> lastBytePos == 0
      invariant pos == PositionAt(c.code, start, read)
      invariant sections == Sections(c.code, start, c.mappings[..idx])
    {
      var (bytePos, sourceMap) := c.mappings[idx];
      assert idx > 0 ==> c.mappings[idx - 1].0 <= bytePos;
      var want := bytePos - lastBytePos;
      while want > 0
        invariant 0 <= want && read + want == bytePos <= |c.code|
        invariant pos == PositionAt(c.code, start, read)
      {
        var end := if want < |c.code| - read then want else |c.code| - read;
        assert c.code[..read + end] == c.code[..read] + c.code[read..read + end];
        AdvanceConcat(start, c.code[..read], c.code[read..read + end]);
        pos := Advance(pos, c.code[read..read + end]);
        read := read + end;
        want := want - end;
      }
      lastBytePos := bytePos;
      assert c.mappings[..idx + 1][..idx] == c.mappings[..idx];
      if sourceMap.Some? {
        sections := sections + [(pos, Given(sourceMap.value))];
      } else if pos.column != 0 && read < |c.code| && c.code[read] != '\n' {
        sections := sections + [(pos, EmptyMap)];
      }
    }
    assert c.mappings[..|c.mappings|] == c.mappings;
    if |sections| == 1 && sections[0].0 == Position(0, 0) && debugId.None? {
      r := Single(sections[0].1);
    } else {
      r := Sectioned(sections, debugId);
    }
  }

  /** With a debug id every section starts on line 1 or later, so the map is
      always sectioned. */
  lemma {:induction false} DebugIdSectionsFromLineOne(code: string, ms: seq<Mapping>, debugId: string)
    requires OffsetsWithin(ms, |code|)
    ensures forall i :: 0 <= i < |Sections(code, Start(Some(debugId)), ms)| ==>
      Sections(code, Start(Some(debugId)), ms)[i].0.line >= 1
  {
    if ms != [] {
      DebugIdSectionsFromLineOne(code, ms[..|ms| - 1], debugId);
    }
  }

  predicate InOrder(s: seq<Section>) {
    forall i, j :: 0 <= i <= j < |s| ==> PositionLe(s[i].0, s[j].0)
  }

  predicate AllAtMost(s: seq<Section>, p: Position) {
    forall i :: 0 <= i < |s| ==> PositionLe(s[i].0, p)
  }

  /** Sections follow the code: their positions never go back. */
  lemma {:induction false} SectionsOrdered(code: string, start: Position, ms: seq<Mapping>)
    requires OffsetsWithin(ms, |code|)
    requires forall i, j :: 0 <= i <= j < |ms| ==> ms[i].0 <= ms[j].0
    ensures InOrder(Sections(code, start, ms))
  {
    if ms != [] {
      var init := ms[..|ms| - 1];
      SectionsOrdered(code, start, init);
      var s0 := Sections(code, start, init);
      var last := ms[|ms| - 1];
      var p := PositionAt(code, start, last.0);
      assert forall i :: 0 <= i < |init| ==> init[i].0 <= last.0 by {
        forall i | 0 <= i < |init| ensures init[i].0 <= last.0 {
          assert init[i] == ms[i];
        }
      }
      SectionsAtMost(code, start, init, last.0);
      var s := Sections(code, start, ms);
      assert s == s0 + SectionOf(code, start, last);
      forall i, j | 0 <= i <= j < |s| ensures PositionLe(s[i].0, s[j].0) {
        if j < |s0| {
          assert s[i] == s0[i] && s[j] == s0[j];
        } else if i < |s0| {
          assert s[i] == s0[i];
          assert PositionLe(s0[i].0, p);
        }
      }
    }
  }

  /** Every section of mappings at offsets up to `k` lies at or before the
      position of byte `k`. */
  lemma {:induction false} SectionsAtMost(code: string, start: Position, ms: seq<Mapping>, k: nat)
    requires k <= |code|
    requires forall i :: 0 <= i < |ms| ==> ms[i].0 <= k
    ensures AllAtMost(Sections(code, start, ms), PositionAt(code, start, k))
  {
    if ms != [] {
      var init := ms[..|ms| - 1];
      SectionsAtMost(code, start, init, k);
      PositionAtMonotone(code, start, ms[|ms| - 1].0, k);
      var s0 := Sections(code, start, init);
      var s := Sections(code, start, ms);
      assert s == s0 + SectionOf(code, start, ms[|ms| - 1]);
      var last := SectionOf(code, start, ms[|ms| - 1]);
      forall i | 0 <= i < |s| ensures PositionLe(s[i].0, PositionAt(code, start, k)) {
        if i < |s0| {
          assert s[i] == s0[i];
          assert PositionLe(s0[i].0, PositionAt(code, start, k));
        } else {
          assert s[i] == last[i - |s0|];
          assert s[i].0 == PositionAt(code, start, ms[|ms| - 1].0);
        }
      }
    }
  }

  /** The maps in the mappings.. */
  function GivenMaps(ms: seq<Mapping>): seq<string> {
    if ms == [] then []
    else GivenMaps(ms[..|ms| - 1]) + (if ms[|ms| - 1].1.Some? then [ms[|ms| - 1].1.value] else [])
  }

  /** The given maps of the sections. */
  function SectionMaps(s: seq<Section>): seq<string> {
    if s == [] then []
    else SectionMaps(s[..|s| - 1]) + (if s[|s| - 1].1.Given? then [s[|s| - 1].1.sourceMap] else [])
  }

  lemma {:induction false} SectionMapsConcat(a: seq<Section>, b: seq<Section>)
    ensures SectionMaps(a + b) == SectionMaps(a) + SectionMaps(b)
    decreases |b|
  {
    if b != [] {
      assert (a + b)[..|a + b| - 1] == a + b[..|b| - 1];
      assert (a + b)[|a + b| - 1] == b[|b| - 1];
      SectionMapsConcat(a, b[..|b| - 1]);
    } else {
      assert a + b == a;
    }
  }

  /** Every source map of the code becomes a section, in order; empty
      sections carry no map. */
  lemma {:induction false} SectionsKeepMaps(code: string, start: Position, ms: seq<Mapping>)
    requires OffsetsWithin(ms, |code|)
    ensures SectionMaps(Sections(code, start, ms)) == GivenMaps(ms)
  {
    if ms != [] {
      SectionsKeepMaps(code, start, ms[..|ms| - 1]);
      SectionMapsConcat(Sections(code, start, ms[..|ms| - 1]), SectionOf(code, start, ms[|ms| - 1]));
    }
  }
}
