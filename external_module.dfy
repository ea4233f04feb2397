/** Cached external modules: a module that stands for a package loaded at
    run time instead of bundled, with the code that loads it, the exports it
    offers and whether it is asynchronous. */
module ExternalModule {
  import opened Wrappers
  import Text

  /** `CachedExternalType`: how the external is loaded. */
  datatype CachedExternalType =
    | CommonJs
    | EcmaScriptViaRequire
    | EcmaScriptViaImport
    | Global
    | Script

  /** The `Display` text of an external type, used as an ident modifier. */
  function TypeName(t: CachedExternalType): string {
    match t
    case CommonJs => "cjs"
    case EcmaScriptViaRequire => "esm_require"
    case EcmaScriptViaImport => "esm_import"
    case Global => "global"
    case Script => "script"
  }

  /** Each external type has its own name, so two externals of one request
      but different types get different idents. */
  lemma TypeNameInjective(a: CachedExternalType, b: CachedExternalType)
    ensures TypeName(a) == TypeName(b) <==> a == b
  {
    if a != b {
      assert TypeName(a)[0] != TypeName(b)[0] || |TypeName(a)| != |TypeName(b)|;
    }
  }

  /** `CachedExternalModule`, with the tracing mode reduced to whether the
      module is traced. */
  datatype CachedExternalModule = CachedExternalModule(request: string, externalType: CachedExternalType, traced: bool)

  /** The names of the runtime helpers the generated code calls; their
      values are defined outside this model. */
  datatype RuntimeNames = RuntimeNames(
    externalImport: string,
    externalRequire: string,
    loadByUrl: string,
    exportNamespace: string,
    exportValue: string)

  /** How serde_json writes one character inside a string literal, which is
      what `StringifyJs` (turbopack-ecmascript's utils.rs) produces: `"` and
      `\` behind a backslash; the control characters below U+0020 as `\b`,
      `\t`, `\n`, `\f` or `\r`, or else as `\u00` and two lower-case hex
      digits; every other character as it is. */
  function EscapeChar(c: char): (r: string)
    ensures |r| >= 1
    ensures r == [c] <==> c != '"' && c != '\\' && c as int >= 0x20
    ensures r[0] == '\\' <==> r != [c]
  {
    if c == '"' then ['\\', '"']
    else if c == '\\' then ['\\', '\\']
    else if c as int == 0x08 then ['\\', 'b']
    else if c == '\t' then ['\\', 't']
    else if c == '\n' then ['\\', 'n']
    else if c as int == 0x0C then ['\\', 'f']
    else if c == '\r' then ['\\', 'r']
    else if c as int < 0x20 then ['\\', 'u', '0', '0', Text.HexDigit(c as int / 16), Text.HexDigit(c as int % 16)]
    else [c]
  }

  /** The body of a string literal: every character escaped in turn. No
      control character is left raw, so the literal stays on one line. */
  function EscapeJs(s: string): (r: string)
    ensures |r| >= |s|
    ensures forall i :: 0 <= i < |r| ==> r[i] as int >= 0x20
  {
    if s == [] then []
    else
      var head := EscapeChar(s[0]);
      assert forall i :: 0 <= i < |head| ==> head[i] as int >= 0x20 by {
        Text.HexDigitRoundTrip(0);
        if s[0] as int < 0x20 && |head| == 6 {
          Text.HexDigitRoundTrip(s[0] as int / 16);
          Text.HexDigitRoundTrip(s[0] as int % 16);
        }
      }
      head + EscapeJs(s[1..])
  }

  /** `StringifyJs` of a string: the string as a JavaScript literal. */
  function StringifyJs(s: string): string {
    "\"" + EscapeJs(s) + "\""
  }

  /** The value of a hexadecimal digit of either case, as a JSON reader
      takes it. */
  function HexDigitOf(c: char): Option<nat> {
    if '0' <= c <= '9' then Some(c as int - '0' as int)
    else if 'a' <= c <= 'f' then Some(c as int - 'a' as int + 10)
    else if 'A' <= c <= 'F' then Some(c as int - 'A' as int + 10)
    else None
  }

  /** The character of a `\u` escape with four hex digits; code units of
      surrogate pairs (from U+D800) are not read. */
  function UnicodeEscape(t: string): Option<char>
    requires |t| == 4
  {
    match (HexDigitOf(t[0]), HexDigitOf(t[1]), HexDigitOf(t[2]), HexDigitOf(t[3]))
    case (Some(a), Some(b), Some(c), Some(d)) =>
      var v := ((a * 16 + b) * 16 + c) * 16 + d;
      if v < 0xD800 then Some(v as char) else None
    case _ => None
  }

  /** One escape of a JSON string, read from the text after the backslash:
      the character it stands for and how many characters it takes. */
  function DecodeEscape(t: string): (r: Option<(char, nat)>)
    ensures r.Some? ==> 1 <= r.value.1 <= |t|
  {
    if t == [] then None
    else if t[0] == '"' || t[0] == '\\' || t[0] == '/' then Some((t[0], 1))
    else if t[0] == 'b' then Some((0x08 as char, 1))
    else if t[0] == 't' then Some(('\t', 1))
    else if t[0] == 'n' then Some(('\n', 1))
    else if t[0] == 'f' then Some((0x0C as char, 1))
    else if t[0] == 'r' then Some(('\r', 1))
    else if t[0] == 'u' && |t| >= 5 then
      (match UnicodeEscape(t[1..5])
       case Some(c) => Some((c, 5))
       case None => None)
    else None
  }

  function Cons(c: char, r: Option<string>): Option<string> {
    match r
    case Some(t) => Some([c] + t)
    case None => None
  }

  /** Reads the body of a JSON string literal back, independently of how it
      was written: escapes are decoded, and a raw `"`, a raw control
      character or a bad escape makes the body unreadable. */
  function Unescape(s: string): Option<string>
    decreases |s|
  {
    if s == [] then Some([])
    else if s[0] == '\\' then
      match DecodeEscape(s[1..])
      case Some((c, n)) => Cons(c, Unescape(s[1 + n..]))
      case None => None
    else if s[0] == '"' || s[0] as int < 0x20 then None
    else Cons(s[0], Unescape(s[1..]))
  }

  /** Reading back one escaped character consumes exactly its escape. */
  lemma UnescapeEscapeChar(c: char, rest: string)
    ensures Unescape(EscapeChar(c) + rest) == Cons(c, Unescape(rest))
  {
    var e := EscapeChar(c);
    var s := e + rest;
    if e == [c] {
      assert s[0] == c && s[1..] == rest;
    } else if |e| == 2 {
      assert s[0] == '\\' && s[1..] == [e[1]] + rest && s[2..] == rest;
    } else {
      var hi, lo := c as int / 16, c as int % 16;
      Text.HexDigitRoundTrip(0);
      Text.HexDigitRoundTrip(hi);
      Text.HexDigitRoundTrip(lo);
      assert s[1..] == ['u', '0', '0', Text.HexDigit(hi), Text.HexDigit(lo)] + rest;
      assert s[1..][1..5] == ['0', '0', Text.HexDigit(hi), Text.HexDigit(lo)];
      assert HexDigitOf(Text.HexDigit(hi)) == Some(hi);
      assert HexDigitOf(Text.HexDigit(lo)) == Some(lo);
      assert UnicodeEscape(s[1..][1..5]) == Some(c);
      assert s[6..] == rest;
    }
  }

  /** The escaping is undone by an independent JSON reader: every string
      comes back unchanged, so the literal is a valid JSON string that holds
      exactly the request. */
  lemma {:induction false} EscapeRoundTrip(s: string)
    ensures Unescape(EscapeJs(s)) == Some(s)
  {
    if s != [] {
      EscapeRoundTrip(s[1..]);
      UnescapeEscapeChar(s[0], EscapeJs(s[1..]));
      assert [s[0]] + s[1..] == s;
    }
  }

  /** Text without quotes, backslashes and control characters is written as
      it is. */
  lemma {:induction false} EscapePlain(s: string)
    requires forall i :: 0 <= i < |s| ==> s[i] != '"' && s[i] != '\\' && s[i] as int >= 0x20
    ensures EscapeJs(s) == s
  {
    if s != [] {
      EscapePlain(s[1..]);
      assert [s[0]] + s[1..] == s;
    }
  }

  /** The escapes of the control characters JSON names, and of the others. */
  lemma ControlEscapes()
    ensures EscapeJs("a\nb") == "a\\nb"
    ensures EscapeJs("\t") == "\\t"
    ensures EscapeJs([0x01 as char]) == "\\u0001"
    ensures EscapeJs([0x1F as char]) == "\\u001f"
  {
    Text.HexDigitRoundTrip(0);
    assert Text.HexDigit(1) == '1';
    assert Text.HexDigit(15) == 'f';
    assert EscapeJs("b") == "b";
    assert EscapeJs("\nb") == "\\nb";
  }

  // ---------------------------------------------------------------------------
  // Script externals

  /** A script request `variable@url`, split at its first '@'; None when it
      has none. */
  function ScriptParts(request: string): (r: Option<(string, string)>)
    ensures r.None? <==> '@' !in request
    ensures r.Some? ==> r.value.0 + "@" + r.value.1 == request && '@' !in r.value.0
  {
    match Text.IndexOf(request, '@')
    case None => None
    case Some(i) =>
      assert request == request[..i] + "@" + request[i + 1..];
      Some((request[..i], request[i + 1..]))
  }

  /** Joining a variable without '@' and a URL with '@' and splitting again
      gives them back. */
  lemma ScriptPartsRoundTrip(variable: string, url: string)
    requires '@' !in variable
    ensures ScriptParts(variable + "@" + url) == Some((variable, url))
  {
    var request := variable + "@" + url;
    assert request[|variable|] == '@' && request[..|variable|] == variable;
    Text.IndexOfFirst(request, '@', |variable|);
    assert request[|variable| + 1..] == url;
  }

  // ---------------------------------------------------------------------------
  // Generated code

  /** The binding of an ECMAScript external loaded with `import()`. */
  function ImportBinding(request: string, names: RuntimeNames): string {
    "const mod = await " + names.externalImport + "(" + StringifyJs(request) + ");"
  }

  /** The binding of a global external: the named global, or an empty object
      for an empty name. */
  function GlobalBinding(request: string): string {
    if request == "" then "const mod = {};"
    else "const mod = globalThis[" + StringifyJs(request) + "];"
  }

  /** The binding of an external loaded with `require`. */
  function RequireBinding(request: string, names: RuntimeNames): string {
    var r := StringifyJs(request);
    "const mod = " + names.externalRequire + "(" + r + ", () => require(" + r + "));"
  }

  const VariableMissing := "is not available on global object after loading"
  const LoadFailed := "Failed to load external URL module"
  const InvalidFormat := "Invalid URL external format. Expected \"variable@url\", got:"

  /** The binding of a script external: load the URL, then read the global
      variable, failing with a message when either step fails. */
  function ScriptLines(request: string, variable: string, url: string, names: RuntimeNames): (r: seq<string>)
    ensures |r| == 10
  {
    var v, u := StringifyJs(variable), StringifyJs(url);
    [ "let mod;",
      "try {",
      "  await " + names.loadByUrl + "(" + u + ");",
      "  if (typeof global[" + v + "] === 'undefined') {",
      "    throw new Error('Variable " + v + " " + VariableMissing + " " + u + "');",
      "  }",
      "  mod = global[" + v + "];",
      "} catch (error) {",
      "  throw new Error('" + LoadFailed + " " + StringifyJs(request) + ": ' + (error.message || error));",
      "}" ]
  }

  /** The code of a script request without '@': it throws, and `mod` is
      undefined. */
  function InvalidScriptLines(request: string): (r: seq<string>)
    ensures |r| == 2
  {
    [ "throw new Error('" + InvalidFormat + " " + StringifyJs(request) + "');",
      "const mod = undefined;" ]
  }

  /** The lines that bind `mod` to the external. */
  function BindingLines(m: CachedExternalModule, names: RuntimeNames): (r: seq<string>)
    ensures r != []
  {
    match m.externalType
    case EcmaScriptViaImport => [ImportBinding(m.request, names)]
    case Global => [GlobalBinding(m.request)]
    case Script =>
      (match ScriptParts(m.request)
       case Some((variable, url)) => ScriptLines(m.request, variable, url, names)
       case None => InvalidScriptLines(m.request))
    case EcmaScriptViaRequire => [RequireBinding(m.request, names)]
    case CommonJs => [RequireBinding(m.request, names)]
  }

  /** The last line, which exports `mod`. */
  function ExportTail(t: CachedExternalType, names: RuntimeNames): string {
    if t == CommonJs then "module.exports = mod;"
    else if t == EcmaScriptViaImport || t == EcmaScriptViaRequire then names.exportNamespace + "(mod);"
    else names.exportValue + "(mod);"
  }

  /** The first part of `content`: the lines that bind `mod`, by type. */
  method WriteBinding(m: CachedExternalModule, names: RuntimeNames) returns (code: seq<string>)
    ensures code == BindingLines(m, names)
  {
    match m.externalType {
      case EcmaScriptViaImport =>
        code := [ImportBinding(m.request, names)];
      case Global =>
        code := [GlobalBinding(m.request)];
      case Script =>
        var parts := ScriptParts(m.request);
        if parts.Some? {
          var (variable, url) := parts.value;
          code := ScriptLines(m.request, variable, url, names);
        } else {
          code := InvalidScriptLines(m.request);
        }
      case EcmaScriptViaRequire =>
        code := [RequireBinding(m.request, names)];
      case CommonJs =>
        code := [RequireBinding(m.request, names)];
    }
  }

  /** `content`: the binding lines, an empty line and the export line; the
      code is an ES module for every type but CommonJS. */
  method Content(m: CachedExternalModule, names: RuntimeNames) returns (code: seq<string>, isEsm: bool)
    ensures code == BindingLines(m, names) + ["", ExportTail(m.externalType, names)]
    ensures isEsm <==> m.externalType != CommonJs
  {
    code := WriteBinding(m, names);
    code := code + [""];
    if m.externalType == CommonJs {
      code := code + ["module.exports = mod;"];
    } else if m.externalType == EcmaScriptViaImport || m.externalType == EcmaScriptViaRequire {
      code := code + [names.exportNamespace + "(mod);"];
    } else {
      code := code + [names.exportValue + "(mod);"];
    }
    isEsm := m.externalType != CommonJs;
  }

  /** A script external loads the URL after the first '@' and reads the
      global named before it; without '@' the code throws and `mod` is
      undefined. */
  lemma ScriptBinding(m: CachedExternalModule, names: RuntimeNames, variable: string, url: string)
    requires m.externalType == Script
    ensures '@' !in variable && m.request == variable + "@" + url ==>
      var lines := BindingLines(m, names);
      |lines| == 10
      && lines[2] == "  await " + names.loadByUrl + "(" + StringifyJs(url) + ");"
      && lines[6] == "  mod = global[" + StringifyJs(variable) + "];"
    ensures '@' !in m.request ==> BindingLines(m, names) == InvalidScriptLines(m.request)
  {
    if '@' !in variable && m.request == variable + "@" + url {
      ScriptPartsRoundTrip(variable, url);
    }
  }

  /** The export line exports `mod` as `module.exports` for CommonJS, as a
      namespace for the ECMAScript types and as a value otherwise; with two
      different helper names these are three different lines. */
  lemma ExportTails(t: CachedExternalType, names: RuntimeNames)
    requires names.exportNamespace != names.exportValue
    ensures (ExportTail(t, names) == "module.exports = mod;") <==> t == CommonJs
    ensures (ExportTail(t, names) == names.exportNamespace + "(mod);") <==> t == EcmaScriptViaImport || t == EcmaScriptViaRequire
  {
    var ns, v := names.exportNamespace + "(mod);", names.exportValue + "(mod);";
    var tail := ExportTail(t, names);
    assert "module.exports = mod;"[15] == '=';
    assert ns[|ns| - 6] == '(' && v[|v| - 6] == '(';
    assert ns[..|ns| - 6] == names.exportNamespace && v[..|v| - 6] == names.exportValue;
  }

  // ---------------------------------------------------------------------------
  // Module properties

  /** `is_self_async`. */
  predicate IsSelfAsync(t: CachedExternalType) {
    t == EcmaScriptViaImport || t == Script
  }

  datatype EcmascriptExports = CommonJsExports | DynamicNamespace

  /** `get_exports`. */
  function GetExports(t: CachedExternalType): (r: EcmascriptExports)
    ensures r == CommonJsExports <==> t == CommonJs
  {
    if t == CommonJs then CommonJsExports else DynamicNamespace
  }

  datatype AsyncModule = AsyncModule(hasTopLevelAwait: bool, importExternals: bool)

  /** `get_async_module`. */
  function GetAsyncModule(t: CachedExternalType): (r: Option<AsyncModule>)
  {
    if t == EcmaScriptViaImport || t == Script then Some(AsyncModule(true, t == EcmaScriptViaImport)) else None
  }

  /** A module is asynchronous exactly when it has an async-module record,
      which always has top-level await and imports externals exactly for
      ECMAScript imports; the exports are a namespace exactly when the code
      is an ES module. */
  lemma AsyncAgrees(t: CachedExternalType, m: CachedExternalModule, names: RuntimeNames)
    ensures IsSelfAsync(t) <==> GetAsyncModule(t).Some?
    ensures GetAsyncModule(t).Some? ==> GetAsyncModule(t).value.hasTopLevelAwait
    ensures GetAsyncModule(t).Some? ==> (GetAsyncModule(t).value.importExternals <==> t == EcmaScriptViaImport)
    ensures GetExports(m.externalType) == DynamicNamespace <==> m.externalType != CommonJs
  {
  }
}
