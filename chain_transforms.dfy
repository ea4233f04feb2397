/** Options of Next.js's chain of SWC transforms: `BoolOr`, the setting
    that is either a switch or the configuration of a transform, and the
    patch that turns the options of one file to CommonJS output when the
    file is CommonJS. */
module ChainTransforms {
  import opened Wrappers
  import opened Text
  import opened NextUtil

  // ---------------------------------------------------------------------------
  // BoolOr

  /** A transform that is switched off or on, or configured with `T`. */
  datatype BoolOr<T> = Bool(b: bool) | Data(value: T)

  /** `Default`: switched off. */
  function DefaultBoolOr<T>(): (r: BoolOr<T>)
    ensures r == Bool(false)
  {
    Bool(false)
  }

  /** `to_option`: no configuration when switched off, the default
      configuration when switched on, else the one given. */
  function ToOption<T>(setting: BoolOr<T>, default: T): (r: Option<T>)
    ensures r.None? <==> setting == Bool(false)
    ensures setting == Bool(true) ==> r == Some(default)
    ensures setting.Data? ==> r == Some(setting.value)
  {
    match setting
    case Bool(false) => None
    case Bool(true) => Some(default)
    case Data(v) => Some(v)
  }

  /** The default setting leaves the transform out. */
  lemma DefaultIsOff<T>(default: T)
    ensures ToOption(DefaultBoolOr<T>(), default) == None
  {
  }

  /** What `EmptyStruct` (a struct with no fields that denies unknown ones)
      accepts: an object without fields, or an empty array, which serde
      reads as a struct given field by field. */
  predicate IsEmptyStruct(j: JsonValue) {
    j == JsonObject([]) || j == JsonArray([])
  }

  const NoVariantError := "data did not match any variant of untagged enum Deser"

  /** `Deserialize` for `BoolOr<T>`: the untagged variants are tried in
      order, a boolean, then an empty struct (meaning on), then `T`, read by
      `decode`; a value none of them takes is an error. */
  function DeserializeBoolOr<T>(j: JsonValue, decode: JsonValue -> Option<T>): (r: Result<BoolOr<T>>)
    ensures j.JsonBool? ==> r == Ok(Bool(j.b))
    ensures IsEmptyStruct(j) ==> r == Ok(Bool(true))
    ensures !j.JsonBool? && !IsEmptyStruct(j) ==>
      (r.Ok? <==> decode(j).Some?) && (r.Ok? ==> r.value == BoolOr.Data(decode(j).value))
    ensures r.Err? ==> r.msg == NoVariantError
  {
    if j.JsonBool? then Ok(Bool(j.b))
    else if IsEmptyStruct(j) then Ok(Bool(true))
    else
      match decode(j)
      case Some(v) => Ok(BoolOr.Data(v))
      case None => Err(NoVariantError)
  }

  /** The transform is enabled exactly when the value read is not `false`. */
  lemma DeserializedEnabled<T>(j: JsonValue, decode: JsonValue -> Option<T>, default: T)
    requires DeserializeBoolOr(j, decode).Ok?
    ensures ToOption(DeserializeBoolOr(j, decode).value, default).Some? <==> j != JsonBool(false)
  {
  }

  /** A value `T` would take but that is a boolean or an empty struct never
      reaches `T`: an empty object is "on", even where `T` could be built
      from it. */
  lemma EmptyObjectIsOn<T>(decode: JsonValue -> Option<T>)
    ensures DeserializeBoolOr(JsonObject([]), decode) == Ok(Bool(true))
  {
  }

  /** The JSON text of a setting: the boolean, or `T`'s own text. */
  function SerializeBoolOr<T>(setting: BoolOr<T>, encode: T -> JsonValue): (r: JsonValue)
    ensures setting.Bool? ==> r == JsonBool(setting.b)
    ensures setting.Data? ==> r == encode(setting.value)
  {
    match setting
    case Bool(b) => JsonBool(b)
    case Data(v) => encode(v)
  }

  /** Reading back a written setting gives it again whenever `T`'s text is
      neither a boolean nor an empty struct and `decode` inverts `encode`. */
  lemma DeserializeRoundTrip<T>(setting: BoolOr<T>, encode: T -> JsonValue, decode: JsonValue -> Option<T>)
    requires setting.Data? ==> !encode(setting.value).JsonBool? && !IsEmptyStruct(encode(setting.value))
    requires setting.Data? ==> decode(encode(setting.value)) == Some(setting.value)
    ensures DeserializeBoolOr(SerializeBoolOr(setting, encode), decode) == Ok(setting)
  {
    match setting
    case Bool(b) =>
      assert !IsEmptyStruct(JsonBool(b));
    case Data(v) =>
  }

  /** Decoding a `usize`: a number in range. */
  function DecodeUsize(j: JsonValue): (r: Option<nat>)
    ensures r.Some? <==> j.JsonNumber? && 0 <= j.n < 0x1_0000_0000_0000_0000
  {
    if j.JsonNumber? && 0 <= j.n < 0x1_0000_0000_0000_0000 then Some(j.n as nat) else None
  }

  /** `BoolOr<usize>` reads `false`, `true`, `{}` and `1` and rejects an
      object with a field: a non-empty object that does not fit `T` is an
      error. */
  lemma BoolOrUsizeExamples()
    ensures DeserializeBoolOr(JsonBool(false), DecodeUsize) == Ok(Bool(false))
    ensures DeserializeBoolOr(JsonBool(true), DecodeUsize) == Ok(Bool(true))
    ensures DeserializeBoolOr(JsonObject([]), DecodeUsize) == Ok(Bool(true))
    ensures DeserializeBoolOr(JsonObject([("a", JsonNumber(1))]), DecodeUsize).Err?
    ensures DeserializeBoolOr(JsonNumber(1), DecodeUsize) == Ok(BoolOr.Data(1))
  {
    assert !IsEmptyStruct(JsonObject([("a", JsonNumber(1))]));
    assert !IsEmptyStruct(JsonNumber(1));
  }

  /** A struct with one optional number field, as in the source's test. */
  datatype SomeStruct = SomeStruct(field: Option<nat>)

  /** The values given for the key `field` in an object, in order. */
  function FieldValues(fields: seq<(string, JsonValue)>): (r: seq<JsonValue>)
    ensures |r| <= |fields|
  {
    if fields == [] then []
    else (if fields[0].0 == "field" then [fields[0].1] else []) + FieldValues(fields[1..])
  }

  /** An `Option<usize>` value: `null` is `None`, a `usize` is `Some`. */
  function DecodeOptionalUsize(j: JsonValue): (r: Option<Option<nat>>)
    ensures r == Some(None) <==> j == JsonNull
    ensures r.Some? && r.value.Some? <==> DecodeUsize(j).Some?
  {
    if j == JsonNull then Some(None)
    else match DecodeUsize(j)
      case Some(n) => Some(Some(n))
      case None => None
  }

  /** Decoding `SomeStruct` as serde's derive reads it from JSON: from an
      object, unknown keys are ignored and a missing `field` is `None`, while a
      repeated `field` is an error; from an array, the one element is the
      field. */
  function DecodeSomeStruct(j: JsonValue): (r: Option<SomeStruct>)
    ensures j == JsonObject([]) ==> r == Some(SomeStruct(None))
    ensures j.JsonObject? && FieldValues(j.fields) == [] ==> r == Some(SomeStruct(None))
    ensures j.JsonObject? && |FieldValues(j.fields)| > 1 ==> r.None?
    ensures r.Some? ==> j.JsonObject? || (j.JsonArray? && |j.items| == 1)
  {
    match j
    case JsonObject(fields) =>
      var vs := FieldValues(fields);
      if vs == [] then Some(SomeStruct(None))
      else if |vs| > 1 then None
      else
        (match DecodeOptionalUsize(vs[0])
         case Some(f) => Some(SomeStruct(f))
         case None => None)
    case JsonArray(items) =>
      if |items| == 1 then
        (match DecodeOptionalUsize(items[0])
         case Some(f) => Some(SomeStruct(f))
         case None => None)
      else None
    case _ => None
  }

  /** Like serde, the decoder takes a `null` field, ignores unknown keys and
      reads the one-element array form, and rejects a repeated field. */
  lemma SomeStructLenient()
    ensures DecodeSomeStruct(JsonObject([("field", JsonNull)])) == Some(SomeStruct(None))
    ensures DecodeSomeStruct(JsonObject([("other", JsonNumber(1)), ("field", JsonNumber(2))])) == Some(SomeStruct(Some(2)))
    ensures DecodeSomeStruct(JsonArray([JsonNumber(32)])) == Some(SomeStruct(Some(32)))
    ensures DecodeSomeStruct(JsonObject([("field", JsonNumber(1)), ("field", JsonNumber(2))])).None?
  {
    assert FieldValues([("field", JsonNull)]) == [JsonNull];
    assert FieldValues([("field", JsonNumber(2))]) == [JsonNumber(2)];
    assert FieldValues([("other", JsonNumber(1)), ("field", JsonNumber(2))]) == [JsonNumber(2)];
    assert FieldValues([("field", JsonNumber(1)), ("field", JsonNumber(2))]) == [JsonNumber(1), JsonNumber(2)];
  }

  /** `{}` is "on" even though it is a valid `SomeStruct`, and
      `{"field": 32}` is that struct. */
  lemma BoolOrSomeStructExamples()
    ensures DecodeSomeStruct(JsonObject([])) == Some(SomeStruct(None))
    ensures DeserializeBoolOr(JsonObject([]), DecodeSomeStruct) == Ok(Bool(true))
    ensures DeserializeBoolOr(JsonObject([("field", JsonNumber(32))]), DecodeSomeStruct)
      == Ok(BoolOr.Data(SomeStruct(Some(32))))
  {
    assert !IsEmptyStruct(JsonObject([("field", JsonNumber(32))]));
  }

  // ---------------------------------------------------------------------------
  // Patching the options of one file

  /** The module system of the output, when configured: CommonJS (with its
      `ignoreDynamic` flag) or another one. */
  datatype ModuleConfig = CommonJs(ignoreDynamic: bool) | OtherModuleConfig(id: nat)

  /** Text that marks a file as possibly CommonJS. */
  predicate HasCjsMarker(src: string) {
    Contains(src, "module.exports") || Contains(src, "exports.") || Contains(src, "__esModule")
  }

  /** Whether `patch` switches the output to CommonJS: no module system is
      configured, the source carries a marker, and it parses as a module
      that contains CommonJS. `containsCjs` answers the last part for the
      configured syntax and target (the defaults when unset) and is false
      when the file does not parse. */
  predicate ShouldEnableCommonJs(moduleConfig: Option<ModuleConfig>, src: string, syntax: Option<nat>, target: Option<nat>,
                                 containsCjs: (string, Option<nat>, Option<nat>) -> bool) {
    moduleConfig.None? && HasCjsMarker(src) && containsCjs(src, syntax, target)
  }

  /** The module system after `patch`. */
  function PatchedModule(moduleConfig: Option<ModuleConfig>, src: string, syntax: Option<nat>, target: Option<nat>,
                         containsCjs: (string, Option<nat>, Option<nat>) -> bool): (r: Option<ModuleConfig>)
    ensures moduleConfig.Some? ==> r == moduleConfig
    ensures r == Some(CommonJs(true)) || r == moduleConfig
    ensures r != moduleConfig <==> ShouldEnableCommonJs(moduleConfig, src, syntax, target, containsCjs)
  {
    if ShouldEnableCommonJs(moduleConfig, src, syntax, target, containsCjs) then Some(CommonJs(true)) else moduleConfig
  }

  /** Patching twice changes nothing more. */
  lemma PatchIdempotent(moduleConfig: Option<ModuleConfig>, src: string, syntax: Option<nat>, target: Option<nat>,
                        containsCjs: (string, Option<nat>, Option<nat>) -> bool)
    ensures var once := PatchedModule(moduleConfig, src, syntax, target, containsCjs);
      PatchedModule(once, src, syntax, target, containsCjs) == once
  {
  }

  /** A file with no marker keeps its module system whatever the parser
      says. */
  lemma NoMarkerNoCommonJs(moduleConfig: Option<ModuleConfig>, src: string, syntax: Option<nat>, target: Option<nat>,
                           containsCjs: (string, Option<nat>, Option<nat>) -> bool)
    requires !Contains(src, "exports") && !Contains(src, "__esModule")
    ensures PatchedModule(moduleConfig, src, syntax, target, containsCjs) == moduleConfig
  {
    if Contains(src, "module.exports") {
      var i :| 0 <= i <= |src| - 14 && OccursAt(src, "module.exports", i);
      assert OccursAt(src, "exports", i + 7) by {
        assert src[i + 7..i + 14] == "module.exports"[7..];
      }
      assert false;
    }
    if Contains(src, "exports.") {
      ContainsPrefix(src, "exports.", "exports");
    }
  }

  /** Text that contains `t` contains every prefix `u` of `t`. */
  lemma ContainsPrefix(src: string, t: string, u: string)
    requires |u| <= |t| && t[..|u|] == u && Contains(src, t)
    ensures Contains(src, u)
  {
    var i :| 0 <= i <= |src| - |t| && OccursAt(src, t, i);
    assert OccursAt(src, u, i) by {
      assert src[i..i + |u|] == t[..|u|];
    }
  }

  /** `TransformOptions` as `patch` sees them: whether `.swcrc` files are
      read, the configured module system, and the parser's syntax and
      target. */
  class TransformOptions {
    var swcrc: bool
    var moduleConfig: Option<ModuleConfig>
    const syntax: Option<nat>
    const target: Option<nat>

    constructor (swcrc: bool, moduleConfig: Option<ModuleConfig>, syntax: Option<nat>, target: Option<nat>)
      ensures this.swcrc == swcrc && this.moduleConfig == moduleConfig
      ensures this.syntax == syntax && this.target == target
    {
      this.swcrc := swcrc;
      this.moduleConfig := moduleConfig;
      this.syntax := syntax;
      this.target := target;
    }

    /** `patch`: `.swcrc` files are no longer read, and the output turns to
        CommonJS, ignoring dynamic imports, when the file is CommonJS and no
        module system is configured. */
    method Patch(src: string, containsCjs: (string, Option<nat>, Option<nat>) -> bool)
      modifies this
      ensures !swcrc
      ensures moduleConfig == PatchedModule(old(moduleConfig), src, syntax, target, containsCjs)
    {
      swcrc := false;
      var shouldEnableCommonJs := moduleConfig.None? && HasCjsMarker(src) && containsCjs(src, syntax, target);
      if shouldEnableCommonJs {
        moduleConfig := Some(CommonJs(true));
      }
    }
  }
}
