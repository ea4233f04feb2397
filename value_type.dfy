/** Value types and trait types of the task system. A value type records
    the traits it implements and the implementations of trait methods; a
    trait type names its methods. All three are compared by identity, which
    Dafny's class references give: two objects built alike are still two.
    Native functions are named by number. */
module ValueTypes {
  import opened Wrappers

  /** `TraitMethod`: a method of a trait, with the trait's default
      implementation when it has one. */
  class TraitMethod {
    const traitName: string
    const methodName: string
    const defaultMethod: Option<nat>

    constructor (traitName: string, methodName: string, defaultMethod: Option<nat>)
      ensures this.traitName == traitName && this.methodName == methodName
      ensures this.defaultMethod == defaultMethod
    {
      this.traitName := traitName;
      this.methodName := methodName;
      this.defaultMethod := defaultMethod;
    }
  }

  /** `ValueType`: the traits and trait-method implementations registered
      on a type, and whether it can be serialized through `Any`. */
  class ValueType {
    const name: string
    const globalName: string
    var traits: set<nat>
    var traitMethods: map<TraitMethod, nat>
    /** The magic serialization functors; no constructor sets them. */
    const magicSerialization: bool
    const anySerialization: bool

    /** `new`: no traits, no methods, not serializable. */
    constructor (name: string, globalName: string)
      ensures this.name == name && this.globalName == globalName
      ensures traits == {} && traitMethods == map[]
      ensures !magicSerialization && !IsSerializable()
    {
      this.name := name;
      this.globalName := globalName;
      traits := {};
      traitMethods := map[];
      magicSerialization := false;
      anySerialization := false;
    }

    /** `new_with_any_serialization`: as `new`, but serializable. */
    constructor WithAnySerialization(name: string, globalName: string)
      ensures this.name == name && this.globalName == globalName
      ensures traits == {} && traitMethods == map[]
      ensures !magicSerialization && IsSerializable()
    {
      this.name := name;
      this.globalName := globalName;
      traits := {};
      traitMethods := map[];
      magicSerialization := false;
      anySerialization := true;
    }

    /** `is_serializable`. */
    predicate IsSerializable() {
      anySerialization
    }

    /** `register_trait_method`: `f` becomes the implementation of `m`,
        replacing an earlier one; the traits are untouched. */
    method RegisterTraitMethod(m: TraitMethod, f: nat)
      modifies this
      ensures traitMethods == old(traitMethods)[m := f]
      ensures traits == old(traits)
      ensures GetTraitMethod(m) == Some(f)
      ensures forall other :: other in old(traitMethods) && other != m ==> GetTraitMethod(other) == Some(old(traitMethods)[other])
    {
      traitMethods := traitMethods[m := f];
    }

    /** `get_trait_method`: the registered implementation, else the trait's
        default. */
    function GetTraitMethod(m: TraitMethod): (r: Option<nat>)
      reads this
      ensures m in traitMethods ==> r == Some(traitMethods[m])
      ensures m !in traitMethods ==> r == m.defaultMethod
      ensures r.None? ==> m !in traitMethods && m.defaultMethod.None?
    {
      if m in traitMethods then Some(traitMethods[m]) else m.defaultMethod
    }

    /** `register_trait`: the type implements `t` from now on. */
    method RegisterTrait(t: nat)
      modifies this
      ensures traits == old(traits) + {t}
      ensures traitMethods == old(traitMethods)
      ensures HasTrait(t)
      ensures forall other :: other != t ==> (HasTrait(other) <==> old(HasTrait(other)))
    {
      traits := traits + {t};
    }

    /** `has_trait`. */
    predicate HasTrait(t: nat)
      reads this
    {
      t in traits
    }
  }

  /** Two value types built from the same names are different types:
      equality is identity. */
  method NewValueTypesDiffer(name: string, globalName: string) returns (a: ValueType, b: ValueType)
    ensures a.name == b.name && a.globalName == b.globalName
    ensures a.traits == b.traits && a.traitMethods == b.traitMethods
    ensures a != b
  {
    a := new ValueType(name, globalName);
    b := new ValueType(name, globalName);
  }

  // ---------------------------------------------------------------------------
  // Trait types

  /** The default implementation the last entry for `name` in `list`
      carries; None when `name` has no entry. */
  function LastDefault(list: seq<(string, Option<nat>)>, name: string): Option<nat>
    decreases |list|
  {
    if list == [] then None
    else if list[|list| - 1].0 == name then list[|list| - 1].1
    else LastDefault(list[..|list| - 1], name)
  }

  /** No method name appears twice: what the debug assertion of
      `TraitType::new` checks. */
  predicate NoDuplicateNames(list: seq<(string, Option<nat>)>) {
    forall i, j :: 0 <= i < j < |list| ==> list[i].0 != list[j].0
  }

  /** Without duplicates, each method keeps the default it was listed
      with. */
  lemma {:induction false} LastDefaultOfUnique(list: seq<(string, Option<nat>)>, i: nat)
    requires NoDuplicateNames(list) && i < |list|
    ensures LastDefault(list, list[i].0) == list[i].1
    decreases |list|
  {
    if i < |list| - 1 {
      var init := list[..|list| - 1];
      assert init[i] == list[i];
      LastDefaultOfUnique(init, i);
    }
  }

  /** `TraitType`: a trait and its methods by name. */
  class TraitType {
    const name: string
    const globalName: string
    const methods: map<string, TraitMethod>

    /** `new`: one method object per listed name, keyed by that name and
        carrying the trait's name; for a name listed twice (which the
        debug assertion rejects) the last entry wins. Different names get
        different method objects. */
    constructor (name: string, globalName: string, list: seq<(string, Option<nat>)>)
      ensures this.name == name && this.globalName == globalName
      ensures forall n :: n in methods <==> exists i :: 0 <= i < |list| && list[i].0 == n
      ensures Valid()
      ensures forall n :: n in methods ==> methods[n].defaultMethod == LastDefault(list, n)
      ensures forall a, b :: a in methods && b in methods && a != b ==> methods[a] != methods[b]
    {
      var m: map<string, TraitMethod> := map[];
      for k := 0 to |list|
        invariant forall n :: n in m <==> exists i :: 0 <= i < k && list[i].0 == n
        invariant forall n :: n in m ==> m[n].traitName == name && m[n].methodName == n
        invariant forall n :: n in m ==> m[n].defaultMethod == LastDefault(list[..k], n)
        invariant forall a, b :: a in m && b in m && a != b ==> m[a] != m[b]
      {
        var (methodName, defaultMethod) := list[k];
        var traitMethod := new TraitMethod(name, methodName, defaultMethod);
        assert list[..k + 1][..k] == list[..k];
        m := m[methodName := traitMethod];
      }
      assert list[..|list|] == list;
      this.name := name;
      this.globalName := globalName;
      methods := m;
    }

    /** Each method is filed under its own name and belongs to this trait. */
    predicate Valid() {
      forall n :: n in methods ==> methods[n].traitName == name && methods[n].methodName == n
    }

    /** `get`: the method with that name; an unknown name is the panic of
        the unwrap (Err). */
    function Get(n: string): (r: Result<TraitMethod>)
      requires Valid()
      ensures r.Ok? <==> n in methods
      ensures r.Ok? ==> r.value.methodName == n && r.value.traitName == name
    {
      if n in methods then Ok(methods[n]) else Err("unknown trait method")
    }

    /** The `Display` text: `trait` and the name. */
    function Display(): (r: string)
      ensures |r| == 6 + |name|
      ensures r[..6] == "trait " && r[6..] == name
    {
      "trait " + name
    }
  }
}
