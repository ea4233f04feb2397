/** The result builder of the ECMAScript module analysis, and the small
    decisions the analysis makes about a module: whether it exports
    dynamically, whether a spawned process evaluates code, and the absolute
    path of `__filename`-style references. */
module References {
  import opened Wrappers
  import opened Text

  /** A reference handle (`ResolvedVc<...>`), compared by identity. */
  type Ref = nat

  /** A code generation (`CodeGen`); its content is not modelled. */
  type CodeGen = nat

  /** `EcmascriptExports`: the builder only stores it; its variants other
      than the initial `Unknown` are not distinguished here. */
  datatype EcmascriptExports = Unknown | Exports(id: nat)

  // ---------------------------------------------------------------------------
  // Ordered collections

  predicate NoDuplicates(s: seq<Ref>) {
    forall i, j :: 0 <= i < j < |s| ==> s[i] != s[j]
  }

  /** `FxIndexSet::insert`: appends an element that is not yet present. */
  function InsertOrdered(s: seq<Ref>, x: Ref): (r: seq<Ref>)
    ensures x in r
    ensures forall y :: y in r <==> y in s || y == x
    ensures s <= r && |r| <= |s| + 1
    ensures NoDuplicates(s) ==> NoDuplicates(r)
  {
    if x in s then s else s + [x]
  }

  /** The keys of an insertion-ordered map (`FxIndexMap`) are distinct. */
  predicate DistinctKeys(entries: seq<(string, Ref)>) {
    forall i, j :: 0 <= i < j < |entries| ==> entries[i].0 != entries[j].0
  }

  /** The values of an insertion-ordered map, in insertion order. */
  function Values(entries: seq<(string, Ref)>): (r: seq<Ref>)
    ensures |r| == |entries|
    ensures forall i :: 0 <= i < |r| ==> r[i] == entries[i].1
  {
    seq(|entries|, i requires 0 <= i < |entries| => entries[i].1)
  }

  /** The value stored under `key`, if any. */
  function Lookup(entries: seq<(string, Ref)>, key: string): (r: Option<Ref>)
    ensures r.None? <==> forall i :: 0 <= i < |entries| ==> entries[i].0 != key
    ensures r.Some? ==> exists i :: 0 <= i < |entries| && entries[i] == (key, r.value)
  {
    if entries == [] then None
    else if entries[|entries| - 1].0 == key then Some(entries[|entries| - 1].1)
    else Lookup(entries[..|entries| - 1], key)
  }

  /** `entry(key).or_insert_with(create)`: the stored value when the key is
      present, otherwise `created`, which is then stored at the end. */
  function EntryOrInsert(entries: seq<(string, Ref)>, key: string, created: Ref): (r: (seq<(string, Ref)>, Ref))
    ensures Lookup(r.0, key) == Some(r.1)
    ensures entries <= r.0 && |r.0| <= |entries| + 1
    ensures Lookup(entries, key).Some? ==> r == (entries, Lookup(entries, key).value)
    ensures Lookup(entries, key).None? ==> r.1 == created
    ensures DistinctKeys(entries) ==> DistinctKeys(r.0)
  {
    match Lookup(entries, key)
    case Some(v) => (entries, v)
    case None =>
      var r := entries + [(key, created)];
      assert r[..|r| - 1] == entries;
      (r, created)
  }

  /** The factory runs at most once per key: a second request for the same
      key, whatever it would create, returns the first value and stores
      nothing new. */
  lemma EntryOrInsertOnce(entries: seq<(string, Ref)>, key: string, created1: Ref, created2: Ref)
    ensures var first := EntryOrInsert(entries, key, created1);
      EntryOrInsert(first.0, key, created2) == first
  {
  }

  // ---------------------------------------------------------------------------
  // The splice of `build`

  /** The references of import `i` resolved through its namespace
      (`import * as x from ...; x.foo`), in insertion order. */
  function RewrittenAt(rewritten: map<nat, seq<(string, Ref)>>, i: nat): seq<Ref> {
    if i in rewritten then Values(rewritten[i]) else []
  }

  /** What `build` emits for import `i`: the import itself when it is marked,
      followed by its rewritten references. */
  function SpliceStep(imports: seq<Ref>, marked: set<nat>, rewritten: map<nat, seq<(string, Ref)>>, i: nat): seq<Ref>
    requires i < |imports|
  {
    (if i in marked then [imports[i]] else []) + RewrittenAt(rewritten, i)
  }

  /** The emitted references of the first `n` imports, import by import. */
  function Splice(imports: seq<Ref>, marked: set<nat>, rewritten: map<nat, seq<(string, Ref)>>, n: nat): seq<Ref>
    requires n <= |imports|
  {
    if n == 0 then [] else Splice(imports, marked, rewritten, n - 1) + SpliceStep(imports, marked, rewritten, n - 1)
  }

  /** One more import extends the splice by that import's step. */
  lemma SpliceNext(imports: seq<Ref>, marked: set<nat>, rewritten: map<nat, seq<(string, Ref)>>, i: nat)
    requires i < |imports|
    ensures Splice(imports, marked, rewritten, i + 1)
         == Splice(imports, marked, rewritten, i) + (if i in marked then [imports[i]] else []) + RewrittenAt(rewritten, i)
  {
  }

  /** One step of `build` on one list: push the import when it is marked,
      then extend by its rewritten references (none for the re-export list,
      which is spliced with an empty rewrite map). */
  method Extend(acc: seq<Ref>, prefix: seq<Ref>, imports: seq<Ref>, marked: set<nat>,
                rewritten: map<nat, seq<(string, Ref)>>, i: nat) returns (r: seq<Ref>)
    requires i < |imports|
    requires acc == prefix + Splice(imports, marked, rewritten, i)
    ensures r == prefix + Splice(imports, marked, rewritten, i + 1)
  {
    SpliceNext(imports, marked, rewritten, i);
    r := acc;
    if i in marked {
      r := r + [imports[i]];
    }
    r := r + RewrittenAt(rewritten, i);
  }

  /** With every import marked and nothing rewritten, the imports are emitted
      as they are. */
  lemma {:induction false} SpliceAllMarked(imports: seq<Ref>, marked: set<nat>, n: nat)
    requires n <= |imports|
    requires forall i :: 0 <= i < n ==> i in marked
    ensures Splice(imports, marked, map[], n) == imports[..n]
  {
    if n > 0 {
      SpliceAllMarked(imports, marked, n - 1);
      assert imports[..n] == imports[..n - 1] + [imports[n - 1]];
    }
  }

  /** Without rewrites, exactly the marked imports are emitted. */
  lemma {:induction false} SpliceMembers(imports: seq<Ref>, marked: set<nat>, n: nat, x: Ref)
    requires n <= |imports|
    ensures x in Splice(imports, marked, map[], n) <==> exists i :: 0 <= i < n && i in marked && imports[i] == x
  {
    if n > 0 {
      SpliceMembers(imports, marked, n - 1, x);
      if x in Splice(imports, marked, map[], n) && x !in Splice(imports, marked, map[], n - 1) {
        assert imports[n - 1] == x;
      }
    }
  }

  /** Every marked import and every rewritten reference of an import is
      emitted. */
  lemma {:induction false} SpliceContains(imports: seq<Ref>, marked: set<nat>, rewritten: map<nat, seq<(string, Ref)>>, n: nat, i: nat)
    requires i < n <= |imports|
    ensures i in marked ==> imports[i] in Splice(imports, marked, rewritten, n)
    ensures forall x :: x in RewrittenAt(rewritten, i) ==> x in Splice(imports, marked, rewritten, n)
  {
    if i < n - 1 {
      SpliceContains(imports, marked, rewritten, n - 1, i);
    }
  }

  /** `r` is a sub-sequence of `s`: its elements appear in `s` in the same
      order. */
  predicate Subsequence(r: seq<Ref>, s: seq<Ref>)
    decreases |s|
  {
    r == [] || (s != [] && ((r[|r| - 1] == s[|s| - 1] && Subsequence(r[..|r| - 1], s[..|s| - 1])) || Subsequence(r, s[..|s| - 1])))
  }

  lemma {:induction false} SubsequenceRefl(s: seq<Ref>)
    ensures Subsequence(s, s)
    decreases |s|
  {
    if s != [] {
      SubsequenceRefl(s[..|s| - 1]);
    }
  }

  lemma {:induction false} SubsequenceExtend(r: seq<Ref>, s: seq<Ref>, t: seq<Ref>)
    requires Subsequence(r, s)
    ensures Subsequence(r, s + t)
    decreases |t|
  {
    if r != [] && t != [] {
      SubsequenceExtend(r, s, t[..|t| - 1]);
      assert (s + t)[..|s + t| - 1] == s + t[..|t| - 1];
    } else if r != [] {
      assert s + t == s;
    }
  }

  lemma {:induction false} SubsequenceConcat(x: seq<Ref>, y: seq<Ref>, s: seq<Ref>, t: seq<Ref>)
    requires Subsequence(x, y) && Subsequence(s, t)
    ensures Subsequence(x + s, y + t)
    decreases |t|
  {
    if s == [] {
      SubsequenceExtend(x, y, t);
      assert x + s == x;
    } else {
      var s', t' := s[..|s| - 1], t[..|t| - 1];
      assert (x + s)[..|x + s| - 1] == x + s';
      assert (y + t)[..|y + t| - 1] == y + t';
      if s[|s| - 1] == t[|t| - 1] && Subsequence(s', t') {
        SubsequenceConcat(x, y, s', t');
      } else {
        SubsequenceConcat(x, y, s, t');
      }
    }
  }

  /** Emitting fewer marked imports and fewer rewritten lists keeps the rest
      in the same relative order: the local and the re-export lists are
      sub-sequences of the ESM list. */
  lemma {:induction false} SpliceSubsequence(imports: seq<Ref>, a: set<nat>, rwA: map<nat, seq<(string, Ref)>>,
                                             b: set<nat>, rwB: map<nat, seq<(string, Ref)>>, n: nat)
    requires n <= |imports|
    requires a <= b
    requires forall i :: i in rwA ==> i in rwB && rwA[i] == rwB[i]
    ensures Subsequence(Splice(imports, a, rwA, n), Splice(imports, b, rwB, n))
  {
    if n == 0 {
    } else {
      var i := n - 1;
      SpliceSubsequence(imports, a, rwA, b, rwB, i);
      var marks: seq<Ref> := if i in a then [imports[i]] else [];
      var markB: seq<Ref> := if i in b then [imports[i]] else [];
      if i in a {
        SubsequenceRefl(markB);
      }
      if i in rwA {
        SubsequenceRefl(RewrittenAt(rwB, i));
      }
      SubsequenceConcat(marks, markB, RewrittenAt(rwA, i), RewrittenAt(rwB, i));
      SubsequenceConcat(Splice(imports, a, rwA, i), Splice(imports, b, rwB, i),
                        SpliceStep(imports, a, rwA, i), SpliceStep(imports, b, rwB, i));
    }
  }

  // ---------------------------------------------------------------------------
  // The builder

  /** `AnalyzeEcmascriptModuleResult`: the lists `build` produces and the
      values it passes on. */
  datatype AnalyzeResult = AnalyzeResult(
    references: seq<Ref>,
    esmReferences: seq<Ref>,
    esmLocalReferences: seq<Ref>,
    esmReexportReferences: seq<Ref>,
    codeGeneration: seq<CodeGen>,
    exports: EcmascriptExports,
    asyncModule: Option<Ref>,
    hasSideEffectFreeDirective: bool,
    successful: bool,
    sourceMap: Option<Ref>)

  /** `AnalyzeEcmascriptModuleResultBuilder`. The ESM reference sets hold
      indices into the module's import references. */
  class AnalyzeResultBuilder {
    const isCodeGen: bool
    var references: seq<Ref>
    var esmReferences: set<nat>
    var esmLocalReferences: set<nat>
    var esmReexportReferences: set<nat>
    var freeVar: seq<(string, Ref)>
    var rewritten: map<nat, seq<(string, Ref)>>
    var codeGens: seq<CodeGen>
    var exports: EcmascriptExports
    var asyncModule: Option<Ref>
    var successful: bool
    var sourceMap: Option<Ref>
    var hasSideEffectFreeDirective: bool

    /** Every local or re-export index is also an ESM index, the ordered
        collections have no repeated entries, and code generations are only
        collected in code-generation mode. */
    predicate Valid()
      reads this
    {
      && esmLocalReferences <= esmReferences
      && esmReexportReferences <= esmReferences
      && NoDuplicates(references)
      && DistinctKeys(freeVar)
      && (forall i :: i in rewritten ==> DistinctKeys(rewritten[i]))
      && (!isCodeGen ==> codeGens == [])
    }

    constructor (isCodeGen: bool)
      ensures Valid() && this.isCodeGen == isCodeGen
      ensures references == [] && codeGens == [] && freeVar == [] && rewritten == map[]
      ensures esmReferences == {} && esmLocalReferences == {} && esmReexportReferences == {}
      ensures exports == Unknown && asyncModule == None && !successful && sourceMap == None
      ensures !hasSideEffectFreeDirective
    {
      this.isCodeGen := isCodeGen;
      references := [];
      esmReferences, esmLocalReferences, esmReexportReferences := {}, {}, {};
      freeVar, rewritten, codeGens := [], map[], [];
      exports, asyncModule, successful, sourceMap := Unknown, None, false, None;
      hasSideEffectFreeDirective := false;
    }

    /** `add_reference`. */
    method AddReference(reference: Ref)
      requires Valid()
      modifies this
      ensures Valid()
      ensures references == InsertOrdered(old(references), reference)
      ensures esmReferences == old(esmReferences) && esmLocalReferences == old(esmLocalReferences)
      ensures esmReexportReferences == old(esmReexportReferences) && codeGens == old(codeGens)
      ensures freeVar == old(freeVar) && rewritten == old(rewritten)
      ensures exports == old(exports) && asyncModule == old(asyncModule) && successful == old(successful)
      ensures sourceMap == old(sourceMap) && hasSideEffectFreeDirective == old(hasSideEffectFreeDirective)
    {
      references := InsertOrdered(references, reference);
    }

    /** `add_code_gen`: kept only in code-generation mode. */
    method AddCodeGen(codeGen: CodeGen)
      requires Valid()
      modifies this
      ensures Valid()
      ensures codeGens == if isCodeGen then old(codeGens) + [codeGen] else old(codeGens)
      ensures references == old(references) && esmReferences == old(esmReferences)
      ensures esmLocalReferences == old(esmLocalReferences) && esmReexportReferences == old(esmReexportReferences)
      ensures freeVar == old(freeVar) && rewritten == old(rewritten)
      ensures exports == old(exports) && asyncModule == old(asyncModule) && successful == old(successful)
      ensures sourceMap == old(sourceMap) && hasSideEffectFreeDirective == old(hasSideEffectFreeDirective)
    {
      if isCodeGen {
        codeGens := codeGens + [codeGen];
      }
    }

    /** `add_reference_code_gen`: the reference and its code generation. */
    method AddReferenceCodeGen(reference: Ref, codeGen: CodeGen)
      requires Valid()
      modifies this
      ensures Valid()
      ensures references == InsertOrdered(old(references), reference)
      ensures codeGens == if isCodeGen then old(codeGens) + [codeGen] else old(codeGens)
      ensures esmReferences == old(esmReferences) && esmLocalReferences == old(esmLocalReferences)
      ensures esmReexportReferences == old(esmReexportReferences)
      ensures freeVar == old(freeVar) && rewritten == old(rewritten)
      ensures exports == old(exports) && asyncModule == old(asyncModule) && successful == old(successful)
      ensures sourceMap == old(sourceMap) && hasSideEffectFreeDirective == old(hasSideEffectFreeDirective)
    {
      references := InsertOrdered(references, reference);
      AddCodeGen(codeGen);
    }

    /** `add_esm_reference`: the import is an ESM reference used locally. */
    method AddEsmReference(idx: nat)
      requires Valid()
      modifies this
      ensures Valid()
      ensures esmReferences == old(esmReferences) + {idx}
      ensures esmLocalReferences == old(esmLocalReferences) + {idx}
      ensures esmReexportReferences == old(esmReexportReferences)
      ensures references == old(references) && codeGens == old(codeGens)
      ensures freeVar == old(freeVar) && rewritten == old(rewritten)
      ensures exports == old(exports) && asyncModule == old(asyncModule) && successful == old(successful)
      ensures sourceMap == old(sourceMap) && hasSideEffectFreeDirective == old(hasSideEffectFreeDirective)
    {
      esmReferences := esmReferences + {idx};
      esmLocalReferences := esmLocalReferences + {idx};
    }

    /** `add_esm_reexport_reference`: the import is an ESM reference that is
        re-exported. */
    method AddEsmReexportReference(idx: nat)
      requires Valid()
      modifies this
      ensures Valid()
      ensures esmReferences == old(esmReferences) + {idx}
      ensures esmReexportReferences == old(esmReexportReferences) + {idx}
      ensures esmLocalReferences == old(esmLocalReferences)
      ensures references == old(references) && codeGens == old(codeGens)
      ensures freeVar == old(freeVar) && rewritten == old(rewritten)
      ensures exports == old(exports) && asyncModule == old(asyncModule) && successful == old(successful)
      ensures sourceMap == old(sourceMap) && hasSideEffectFreeDirective == old(hasSideEffectFreeDirective)
    {
      esmReferences := esmReferences + {idx};
      esmReexportReferences := esmReexportReferences + {idx};
    }

    /** `add_esm_evaluation_reference`: the import is evaluated for its side
        effects, which counts as a local use. */
    method AddEsmEvaluationReference(idx: nat)
      requires Valid()
      modifies this
      ensures Valid()
      ensures esmReferences == old(esmReferences) + {idx}
      ensures esmLocalReferences == old(esmLocalReferences) + {idx}
      ensures esmReexportReferences == old(esmReexportReferences)
      ensures references == old(references) && codeGens == old(codeGens)
      ensures freeVar == old(freeVar) && rewritten == old(rewritten)
      ensures exports == old(exports) && asyncModule == old(asyncModule) && successful == old(successful)
      ensures sourceMap == old(sourceMap) && hasSideEffectFreeDirective == old(hasSideEffectFreeDirective)
    {
      esmReferences := esmReferences + {idx};
      esmLocalReferences := esmLocalReferences + {idx};
    }

    /** The setters: `set_source_map`, `set_exports`, `set_async_module`,
        `set_has_side_effect_free_directive` and `set_successful`, each
        replacing one field. */
    method SetSourceMap(sourceMap: Ref)
      requires Valid()
      modifies this
      ensures Valid() && this.sourceMap == Some(sourceMap)
      ensures references == old(references) && codeGens == old(codeGens)
      ensures esmReferences == old(esmReferences) && esmLocalReferences == old(esmLocalReferences)
      ensures esmReexportReferences == old(esmReexportReferences)
      ensures freeVar == old(freeVar) && rewritten == old(rewritten)
      ensures exports == old(exports) && asyncModule == old(asyncModule) && successful == old(successful)
      ensures hasSideEffectFreeDirective == old(hasSideEffectFreeDirective)
    {
      this.sourceMap := Some(sourceMap);
    }

    method SetExports(exports: EcmascriptExports)
      requires Valid()
      modifies this
      ensures Valid() && this.exports == exports
      ensures references == old(references) && codeGens == old(codeGens)
      ensures esmReferences == old(esmReferences) && esmLocalReferences == old(esmLocalReferences)
      ensures esmReexportReferences == old(esmReexportReferences)
      ensures freeVar == old(freeVar) && rewritten == old(rewritten)
      ensures sourceMap == old(sourceMap) && asyncModule == old(asyncModule) && successful == old(successful)
      ensures hasSideEffectFreeDirective == old(hasSideEffectFreeDirective)
    {
      this.exports := exports;
    }

    method SetAsyncModule(asyncModule: Ref)
      requires Valid()
      modifies this
      ensures Valid() && this.asyncModule == Some(asyncModule)
      ensures references == old(references) && codeGens == old(codeGens)
      ensures esmReferences == old(esmReferences) && esmLocalReferences == old(esmLocalReferences)
      ensures esmReexportReferences == old(esmReexportReferences)
      ensures freeVar == old(freeVar) && rewritten == old(rewritten)
      ensures sourceMap == old(sourceMap) && exports == old(exports) && successful == old(successful)
      ensures hasSideEffectFreeDirective == old(hasSideEffectFreeDirective)
    {
      this.asyncModule := Some(asyncModule);
    }

    method SetHasSideEffectFreeDirective(value: bool)
      requires Valid()
      modifies this
      ensures Valid() && hasSideEffectFreeDirective == value
      ensures references == old(references) && codeGens == old(codeGens)
      ensures esmReferences == old(esmReferences) && esmLocalReferences == old(esmLocalReferences)
      ensures esmReexportReferences == old(esmReexportReferences)
      ensures freeVar == old(freeVar) && rewritten == old(rewritten)
      ensures sourceMap == old(sourceMap) && exports == old(exports) && successful == old(successful)
      ensures asyncModule == old(asyncModule)
    {
      hasSideEffectFreeDirective := value;
    }

    method SetSuccessful(successful: bool)
      requires Valid()
      modifies this
      ensures Valid() && this.successful == successful
      ensures references == old(references) && codeGens == old(codeGens)
      ensures esmReferences == old(esmReferences) && esmLocalReferences == old(esmLocalReferences)
      ensures esmReexportReferences == old(esmReexportReferences)
      ensures freeVar == old(freeVar) && rewritten == old(rewritten)
      ensures sourceMap == old(sourceMap) && exports == old(exports) && asyncModule == old(asyncModule)
      ensures hasSideEffectFreeDirective == old(hasSideEffectFreeDirective)
    {
      this.successful := successful;
    }

    /** `add_esm_reference_namespace_resolved`: the reference for `exportName` of
        import `idx`, created (as `created`) only on the first request. */
    method AddEsmReferenceNamespaceResolved(idx: nat, exportName: string, created: Ref) returns (r: Ref)
      requires Valid()
      modifies this
      ensures Valid()
      ensures var entries := if idx in old(rewritten) then old(rewritten)[idx] else [];
        && idx in rewritten
        && (r, rewritten[idx]) == (EntryOrInsert(entries, exportName, created).1, EntryOrInsert(entries, exportName, created).0)
        && rewritten == old(rewritten)[idx := rewritten[idx]]
      ensures references == old(references) && codeGens == old(codeGens)
      ensures esmReferences == old(esmReferences) && esmLocalReferences == old(esmLocalReferences)
      ensures esmReexportReferences == old(esmReexportReferences) && freeVar == old(freeVar)
      ensures exports == old(exports) && asyncModule == old(asyncModule) && successful == old(successful)
      ensures sourceMap == old(sourceMap) && hasSideEffectFreeDirective == old(hasSideEffectFreeDirective)
    {
      var entries := if idx in rewritten then rewritten[idx] else [];
      var inserted := EntryOrInsert(entries, exportName, created);
      rewritten := rewritten[idx := inserted.0];
      r := inserted.1;
    }

    /** `add_esm_reference_free_var`: the reference for a free variable
        `request`, created only on the first request. `created` is what the
        asynchronous factory would return; its error is passed on and nothing
        is stored. */
    method AddEsmReferenceFreeVar(request: string, created: Result<Ref>) returns (r: Result<Ref>)
      requires Valid()
      modifies this
      ensures Valid()
      ensures Lookup(old(freeVar), request).Some? ==>
        r == Ok(Lookup(old(freeVar), request).value) && freeVar == old(freeVar)
      ensures Lookup(old(freeVar), request).None? && created.Err? ==> r == created && freeVar == old(freeVar)
      ensures Lookup(old(freeVar), request).None? && created.Ok? ==>
        r == created && freeVar == old(freeVar) + [(request, created.value)]
      ensures references == old(references) && codeGens == old(codeGens)
      ensures esmReferences == old(esmReferences) && esmLocalReferences == old(esmLocalReferences)
      ensures esmReexportReferences == old(esmReexportReferences) && rewritten == old(rewritten)
      ensures exports == old(exports) && asyncModule == old(asyncModule) && successful == old(successful)
      ensures sourceMap == old(sourceMap) && hasSideEffectFreeDirective == old(hasSideEffectFreeDirective)
    {
      match Lookup(freeVar, request)
      case Some(v) =>
        r := Ok(v);
      case None =>
        if created.Err? {
          r := created;
        } else {
          freeVar := EntryOrInsert(freeVar, request, created.value).0;
          r := created;
        }
    }

    /** `build`: the free-variable references first, then for each import in
        order the import when it is marked, followed by its rewritten
        references. The local and re-export lists are only produced when
        re-export references are tracked. */
    method Build(importReferences: seq<Ref>, trackReexportReferences: bool) returns (result: AnalyzeResult)
      requires Valid()
      ensures var n := |importReferences|;
        && result.esmReferences == Values(freeVar) + Splice(importReferences, esmReferences, rewritten, n)
        && result.esmLocalReferences ==
             (if trackReexportReferences
              then Values(freeVar) + Splice(importReferences, esmLocalReferences, rewritten, n)
              else [])
        && result.esmReexportReferences ==
             (if trackReexportReferences then Splice(importReferences, esmReexportReferences, map[], n) else [])
      ensures result.references == references && NoDuplicates(result.references)
      ensures result.codeGeneration == codeGens && (!isCodeGen ==> result.codeGeneration == [])
      ensures result.exports == exports && result.asyncModule == asyncModule && result.successful == successful
      ensures result.hasSideEffectFreeDirective == hasSideEffectFreeDirective && result.sourceMap == sourceMap
    {
      var marked, local, reexported, rw := esmReferences, esmLocalReferences, esmReexportReferences, rewritten;
      var free := Values(freeVar);
      var esm := free;
      var localRefs: seq<Ref> := if trackReexportReferences then free else [];
      var reexport: seq<Ref> := [];
      var i := 0;
      while i < |importReferences|
        invariant 0 <= i <= |importReferences|
        invariant esm == free + Splice(importReferences, marked, rw, i)
        invariant trackReexportReferences ==> localRefs == free + Splice(importReferences, local, rw, i)
        invariant trackReexportReferences ==> reexport == Splice(importReferences, reexported, map[], i)
        invariant !trackReexportReferences ==> localRefs == [] && reexport == []
      {
        esm := Extend(esm, free, importReferences, marked, rw, i);
        if trackReexportReferences {
          localRefs := Extend(localRefs, free, importReferences, local, rw, i);
          reexport := Extend(reexport, [], importReferences, reexported, map[], i);
        }
        i := i + 1;
      }
      result := AnalyzeResult(references, esm, localRefs, reexport, codeGens, exports, asyncModule,
                              hasSideEffectFreeDirective, successful, sourceMap);
    }
  }

  /** The free-variable references lead every ESM list, and the local and
      re-export lists keep the order of the ESM list: given the builder's
      invariant that local and re-export indices are ESM indices. */
  lemma BuildListsOrdered(freeVar: seq<(string, Ref)>, imports: seq<Ref>, esm: set<nat>, local: set<nat>,
                          reexport: set<nat>, rewritten: map<nat, seq<(string, Ref)>>)
    requires local <= esm && reexport <= esm
    ensures var n := |imports|;
      && Subsequence(Values(freeVar) + Splice(imports, local, rewritten, n),
                     Values(freeVar) + Splice(imports, esm, rewritten, n))
      && Subsequence(Splice(imports, reexport, map[], n), Values(freeVar) + Splice(imports, esm, rewritten, n))
  {
    var n := |imports|;
    SpliceSubsequence(imports, local, rewritten, esm, rewritten, n);
    SubsequenceRefl(Values(freeVar));
    SubsequenceConcat(Values(freeVar), Values(freeVar), Splice(imports, local, rewritten, n), Splice(imports, esm, rewritten, n));
    SpliceSubsequence(imports, reexport, map[], esm, rewritten, n);
    SubsequenceConcat([], Values(freeVar), Splice(imports, reexport, map[], n), Splice(imports, esm, rewritten, n));
    assert [] + Splice(imports, reexport, map[], n) == Splice(imports, reexport, map[], n);
  }

  // ---------------------------------------------------------------------------
  // detect_dynamic_export

  /** The syntax the detection looks at. `Expr` carries, for a member access
      `__turbopack_context__.<prop>`, the property name; its children are the
      sub-expressions the visitor descends into (the object and computed
      properties, never a plain property name). */
  datatype Node =
    | Stmt(children: seq<Node>)
    | Expr(contextProp: Option<string>, children: seq<Node>)
    | Ident(sym: string)
    | OtherNode(children: seq<Node>)

  /** A module declaration: an import (with its source and whether it carries
      the `__turbopack-helper__` annotation) or any other import or export
      declaration. */
  datatype ModuleDecl = Import(src: string, turbopackHelper: bool) | OtherDecl

  /** A top-level item of a module: a declaration with the nodes inside it,
      or a statement. */
  datatype ModuleItem = Decl(decl: ModuleDecl, inner: seq<Node>) | Item(node: Node)

  datatype Program = Module(items: seq<ModuleItem>) | Script(body: seq<Node>)

  datatype DetectedDynamicExportType = CommonJs | Namespace | Value | NoDynamicExport | UsingModuleDeclarations

  /** The shortcut names of the export-value and export-namespace runtime
      functions on `__turbopack_context__`. */
  const ExportValueShortcut := "v"
  const ExportNamespaceShortcut := "n"

  /** The visitor's flags. */
  datatype Flags = Flags(cjs: bool, value: bool, namespace: bool, found: bool)

  const InitialFlags := Flags(false, false, false, false)

  /** `visit_ident`: `module` and `exports` mean CommonJS, the two runtime
      function names mean a value or a namespace export. Identifiers are seen
      even once something was found. */
  function VisitIdent(f: Flags, sym: string): (r: Flags)
    ensures r.cjs <==> f.cjs || sym == "module" || sym == "exports"
    ensures r.value <==> f.value || sym == "__turbopack_export_value__"
    ensures r.namespace <==> f.namespace || sym == "__turbopack_export_namespace__"
    ensures r.found <==> f.found || sym in ["module", "exports", "__turbopack_export_value__", "__turbopack_export_namespace__"]
  {
    var f1 := if sym == "module" || sym == "exports" then f.(cjs := true, found := true) else f;
    var f2 := if sym == "__turbopack_export_value__" then f1.(value := true, found := true) else f1;
    if sym == "__turbopack_export_namespace__" then f2.(namespace := true, found := true) else f2
  }

  /** The member-access part of `visit_expr`. */
  function VisitContextProp(f: Flags, prop: Option<string>): Flags {
    match prop
    case Some(p) =>
      if p == ExportValueShortcut then f.(value := true, found := true)
      else if p == ExportNamespaceShortcut then f.(namespace := true, found := true)
      else f
    case None => f
  }

  /** The flags after visiting `nodes` in order: statements and expressions
      are skipped once something was found. */
  function VisitNodes(f: Flags, nodes: seq<Node>): Flags
    decreases nodes
  {
    if nodes == [] then f
    else
      var f1 :=
        match nodes[0]
        case Ident(sym) => VisitIdent(f, sym)
        case Stmt(children) => if f.found then f else VisitNodes(f, children)
        case Expr(prop, children) => if f.found then f else VisitNodes(VisitContextProp(f, prop), children)
        case OtherNode(children) => VisitNodes(f, children);
      VisitNodes(f1, nodes[1..])
  }

  /** `is_swc_helper_import`. */
  predicate IsSwcHelperImport(src: string) {
    StartsWith(src, "@swc/helpers/")
  }

  /** A declaration other than a helper import. */
  predicate IsModuleDeclaration(item: ModuleItem) {
    item.Decl? && (item.decl.Import? ==> !item.decl.turbopackHelper && !IsSwcHelperImport(item.decl.src))
  }

  function ItemNode(item: ModuleItem): Node {
    match item
    case Decl(_, inner) => OtherNode(inner)
    case Item(node) => node
  }

  /** The program's top-level nodes, in order. */
  function ProgramNodes(p: Program): (r: seq<Node>)
    ensures p.Script? ==> r == p.body
    ensures p.Module? ==> |r| == |p.items| && forall i :: 0 <= i < |r| ==> r[i] == ItemNode(p.items[i])
  {
    match p
    case Script(body) => body
    case Module(items) => seq(|items|, i requires 0 <= i < |items| => ItemNode(items[i]))
  }

  /** The verdict from the flags: CommonJS beats a value export, which beats
      a namespace export. */
  function Classify(f: Flags): (r: DetectedDynamicExportType)
    ensures r == CommonJs <==> f.cjs
    ensures r == Value <==> !f.cjs && f.value
    ensures r == Namespace <==> !f.cjs && !f.value && f.namespace
    ensures r == NoDynamicExport <==> !f.cjs && !f.value && !f.namespace
  {
    if f.cjs then CommonJs
    else if f.value then Value
    else if f.namespace then Namespace
    else NoDynamicExport
  }

  /** `detect_dynamic_export`. */
  function DetectDynamicExport(p: Program): (r: DetectedDynamicExportType)
    ensures r == UsingModuleDeclarations <==> p.Module? && exists i :: 0 <= i < |p.items| && IsModuleDeclaration(p.items[i])
  {
    if p.Module? && exists i :: 0 <= i < |p.items| && IsModuleDeclaration(p.items[i]) then UsingModuleDeclarations
    else Classify(VisitNodes(InitialFlags, ProgramNodes(p)))
  }

  /** The visitor of `detect_dynamic_export`, its flags updated in place. */
  class DynamicExportVisitor {
    var cjs: bool
    var value: bool
    var namespace: bool
    var found: bool

    function State(): Flags
      reads this
    {
      Flags(cjs, value, namespace, found)
    }

    constructor ()
      ensures State() == InitialFlags
    {
      cjs, value, namespace, found := false, false, false, false;
    }

    method VisitIdentNode(sym: string)
      modifies this
      ensures State() == VisitIdent(old(State()), sym)
    {
      if sym == "module" || sym == "exports" {
        cjs := true;
        found := true;
      }
      if sym == "__turbopack_export_value__" {
        value := true;
        found := true;
      }
      if sym == "__turbopack_export_namespace__" {
        namespace := true;
        found := true;
      }
    }

    /** Visits each node in turn. */
    method Visit(nodes: seq<Node>)
      modifies this
      ensures State() == VisitNodes(old(State()), nodes)
      decreases nodes
    {
      var k := 0;
      while k < |nodes|
        invariant 0 <= k <= |nodes|
        invariant VisitNodes(State(), nodes[k..]) == VisitNodes(old(State()), nodes)
      {
        assert nodes[k..][1..] == nodes[k + 1..];
        match nodes[k] {
        case Ident(sym) =>
          VisitIdentNode(sym);
        case Stmt(children) =>
          if !found {
            Visit(children);
          }
        case Expr(prop, children) =>
          if !found {
            if prop == Some(ExportValueShortcut) {
              value := true;
              found := true;
            } else if prop == Some(ExportNamespaceShortcut) {
              namespace := true;
              found := true;
            }
            Visit(children);
          }
        case OtherNode(children) =>
          Visit(children);
        }
        k := k + 1;
      }
    }
  }

  /** `detect_dynamic_export`, running the visitor. */
  method DetectDynamicExportOf(p: Program) returns (r: DetectedDynamicExportType)
    ensures r == DetectDynamicExport(p)
  {
    if p.Module? {
      var i := 0;
      while i < |p.items|
        invariant 0 <= i <= |p.items|
        invariant forall j :: 0 <= j < i ==> !IsModuleDeclaration(p.items[j])
      {
        if IsModuleDeclaration(p.items[i]) {
          return UsingModuleDeclarations;
        }
        i := i + 1;
      }
    }
    var v := new DynamicExportVisitor();
    v.Visit(ProgramNodes(p));
    r := Classify(v.State());
  }

  /** Every flag raised comes with `found`. */
  predicate Consistent(f: Flags) {
    (f.cjs || f.value || f.namespace) ==> f.found
  }

  /** Some identifier among `nodes`, at any depth, is one of `syms`. */
  predicate Mentions(nodes: seq<Node>, syms: set<string>)
    decreases nodes
  {
    if nodes == [] then false
    else
      var here :=
        match nodes[0]
        case Ident(sym) => sym in syms
        case Stmt(children) => Mentions(children, syms)
        case Expr(_, children) => Mentions(children, syms)
        case OtherNode(children) => Mentions(children, syms);
      here || Mentions(nodes[1..], syms)
  }

  /** The visitor only raises flags, and raises `found` with each of them. */
  lemma {:induction false} VisitMonotone(f: Flags, nodes: seq<Node>)
    ensures var g := VisitNodes(f, nodes);
      (f.cjs ==> g.cjs) && (f.value ==> g.value) && (f.namespace ==> g.namespace) && (f.found ==> g.found)
    ensures Consistent(f) ==> Consistent(VisitNodes(f, nodes))
    decreases nodes
  {
    if nodes != [] {
      var f1 :=
        match nodes[0]
        case Ident(sym) => VisitIdent(f, sym)
        case Stmt(children) => if f.found then f else VisitNodes(f, children)
        case Expr(prop, children) => if f.found then f else VisitNodes(VisitContextProp(f, prop), children)
        case OtherNode(children) => VisitNodes(f, children);
      match nodes[0] {
        case Ident(_) =>
        case Stmt(children) => VisitMonotone(f, children);
        case Expr(prop, children) => VisitMonotone(VisitContextProp(f, prop), children);
        case OtherNode(children) => VisitMonotone(f, children);
      }
      VisitMonotone(f1, nodes[1..]);
    }
  }

  /** CommonJS is only detected where `module` or `exports` is named. */
  lemma {:induction false} CommonJsNamed(f: Flags, nodes: seq<Node>)
    ensures VisitNodes(f, nodes).cjs ==> f.cjs || Mentions(nodes, {"module", "exports"})
    decreases nodes
  {
    if nodes != [] {
      var f1 :=
        match nodes[0]
        case Ident(sym) => VisitIdent(f, sym)
        case Stmt(children) => if f.found then f else VisitNodes(f, children)
        case Expr(prop, children) => if f.found then f else VisitNodes(VisitContextProp(f, prop), children)
        case OtherNode(children) => VisitNodes(f, children);
      match nodes[0] {
        case Ident(_) =>
        case Stmt(children) => CommonJsNamed(f, children);
        case Expr(prop, children) => CommonJsNamed(VisitContextProp(f, prop), children);
        case OtherNode(children) => CommonJsNamed(f, children);
      }
      CommonJsNamed(f1, nodes[1..]);
    }
  }

  /** Once something was found, further statements and expressions are not
      looked at. */
  lemma {:induction false} FoundSkips(f: Flags, nodes: seq<Node>)
    requires f.found
    requires forall i :: 0 <= i < |nodes| ==> nodes[i].Stmt? || nodes[i].Expr?
    ensures VisitNodes(f, nodes) == f
    decreases nodes
  {
    if nodes != [] {
      FoundSkips(f, nodes[1..]);
    }
  }

  /** A script whose first statement names `module` is CommonJS, whatever
      follows. */
  lemma CommonJsFirstWins(rest: seq<Node>)
    ensures DetectDynamicExport(Script([Stmt([Ident("module")])] + rest)) == CommonJs
  {
    var nodes := [Stmt([Ident("module")])] + rest;
    var f1 := VisitNodes(InitialFlags, [Ident("module")]);
    assert f1.cjs;
    assert nodes[1..] == rest;
    VisitMonotone(f1, rest);
  }

  /** The priority holds over what was visited: after a value export, a later
      statement naming `module` is skipped and the module counts as a value
      export. */
  lemma ValueBeforeModule()
    ensures DetectDynamicExport(Script([Stmt([Ident("__turbopack_export_value__")]), Stmt([Ident("module")])])) == Value
  {
    var nodes := [Stmt([Ident("__turbopack_export_value__")]), Stmt([Ident("module")])];
    var f1 := VisitNodes(InitialFlags, [Ident("__turbopack_export_value__")]);
    assert f1 == Flags(false, true, false, true);
    assert nodes[1..] == [Stmt([Ident("module")])];
    FoundSkips(f1, nodes[1..]);
  }

  // ---------------------------------------------------------------------------
  // is_invoking_node_process_eval

  /** The abstract values the check inspects. Numbers are the analyser's
      floating-point constants; a string constant is either an atom or some
      other string representation. */
  datatype JsValue =
    | Member(obj: JsValue, prop: JsValue)
    | ProcessArgv
    | Num(n: real)
    | Str(s: string, isAtom: bool)
    | Array(items: seq<JsValue>)
    | OtherValue

  /** `is_invoking_node_process_eval`: the arguments are `process.argv[0]`
      and an array with the atom "-e" among its items. */
  function IsInvokingNodeProcessEval(args: seq<JsValue>): (r: bool)
    ensures r <==>
      && |args| >= 2
      && args[0] == Member(ProcessArgv, Num(0.0))
      && args[1].Array?
      && Str("-e", true) in args[1].items
  {
    if |args| < 2 then false
    else match args[0]
      case Member(ProcessArgv, Num(n)) =>
        n == 0.0 && args[1].Array? && exists e | e in args[1].items :: e.Str? && e.isAtom && e.s == "-e"
      case _ => false
  }

  /** Only the first two arguments matter. */
  lemma ProcessEvalFirstTwo(args: seq<JsValue>, more: seq<JsValue>)
    requires |args| >= 2
    ensures IsInvokingNodeProcessEval(args + more) == IsInvokingNodeProcessEval(args[..2])
  {
    assert (args + more)[0] == args[..2][0] && (args + more)[1] == args[..2][1];
  }

  // ---------------------------------------------------------------------------
  // as_abs_path / require_resolve

  const RootPrefix := "/ROOT/"

  /** `require_resolve` (and `as_abs_path`, which calls it): the path under
      the placeholder root "/ROOT/". */
  function RequireResolve(path: string): (r: string)
    ensures StartsWith(r, RootPrefix) && |r| == |path| + 6
  {
    RootPrefix + path
  }

  /** The path reads back from the placeholder path, so distinct paths give
      distinct placeholders. */
  lemma RequireResolveRoundTrip(a: string, b: string)
    ensures RequireResolve(a)[6..] == a
    ensures RequireResolve(a) == RequireResolve(b) ==> a == b
  {
    assert RequireResolve(a)[6..] == a;
    assert RequireResolve(b)[6..] == b;
  }
}
