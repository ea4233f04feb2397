/** Next.js dynamic metadata images (icons, Apple icons, Open Graph and
    Twitter images generated by a module): the pieces of the generated
    metadata module that depend on the inputs, namely the size expression,
    the re-exported fields, the generator choice and the hash query of the
    image URL. The module text itself is a template and is not modelled. */
module MetadataImage {
  import opened Wrappers
  import opened Text

  const NumericSizes := "data.width = size.width; data.height = size.height;"

  /** The statement setting `data.sizes` to the given template text. */
  function SizesAssignment(sizes: string): string {
    "data.sizes = `" + sizes + "`;"
  }

  /** The statement filling in an image's size: numeric width and height for
      Twitter and Open Graph images, "any" for an SVG file, and
      "<width>x<height>" for the rest. */
  function SizesCode(ty: string, ext: string): (r: string)
    ensures ty == "twitter" || ty == "openGraph" ==> r == NumericSizes
    ensures ty != "twitter" && ty != "openGraph" && ext == "svg" ==> r == SizesAssignment("any")
    ensures ty != "twitter" && ty != "openGraph" && ext != "svg" ==> r == SizesAssignment("${size.width}x${size.height}")
  {
    var useNumericSizes := ty == "twitter" || ty == "openGraph";
    if useNumericSizes then NumericSizes
    else SizesAssignment(if ext == "svg" then "any" else "${size.width}x${size.height}")
  }

  /** The exports other than "default", in their order. */
  function NonDefault(exports: seq<string>): (r: seq<string>)
    ensures "default" !in r
    ensures |r| <= |exports|
    ensures forall e :: e in r <==> e in exports && e != "default"
  {
    if exports == [] then []
    else if exports[0] == "default" then NonDefault(exports[1..])
    else [exports[0]] + NonDefault(exports[1..])
  }

  /** `r` is a sub-sequence of `s`: its elements appear in `s` in the same
      order. */
  predicate SubsequenceOf(r: seq<string>, s: seq<string>)
    decreases |s|
  {
    r == [] || (s != [] && ((r[0] == s[0] && SubsequenceOf(r[1..], s[1..])) || SubsequenceOf(r, s[1..])))
  }

  /** The kept exports appear in the order the module exports them. */
  lemma {:induction false} NonDefaultInOrder(exports: seq<string>)
    ensures SubsequenceOf(NonDefault(exports), exports)
  {
    if exports != [] {
      NonDefaultInOrder(exports[1..]);
      if exports[0] != "default" {
        assert NonDefault(exports)[1..] == NonDefault(exports[1..]);
      }
    }
  }

  /** A module without a default export keeps all of them. */
  lemma {:induction false} NonDefaultWithoutDefault(exports: seq<string>)
    requires "default" !in exports
    ensures NonDefault(exports) == exports
  {
    if exports != [] {
      assert exports[0] != "default";
      assert "default" !in exports[1..];
      NonDefaultWithoutDefault(exports[1..]);
    }
  }

  /** `exported_fields_excluding_default`: the non-default exports joined
      with ", ". */
  function ExportedFieldsExcludingDefault(exports: seq<string>): string {
    Join(NonDefault(exports), ", ")
  }

  /** The generated module, with or without a `generateImageMetadata`
      export. */
  datatype ImageTemplate = WithGenerator | WithoutGenerator

  /** `dynamic_image_metadata_source`: the generator template is chosen
      exactly when the module exports `generateImageMetadata`. */
  function ImageTemplateFor(exports: seq<string>): (r: ImageTemplate)
    ensures r == WithGenerator <==> "generateImageMetadata" in exports
  {
    if "generateImageMetadata" in exports then WithGenerator else WithoutGenerator
  }

  /** The generator export is re-exported, never dropped with "default". */
  lemma GeneratorReexported(exports: seq<string>)
    ensures ImageTemplateFor(exports) == WithGenerator ==> "generateImageMetadata" in NonDefault(exports)
  {
  }

  // ---------------------------------------------------------------------------
  // Hash query

  /** The hash query of an image URL: "?" and the content hash in lower-case
      hexadecimal; a missing file is an error. `content` is the file's
      bytes, None when it is not found; `display` is the path as the error
      message prints it. */
  function HashQuery(display: string, content: Option<seq<bv8>>, xxh3: seq<bv8> -> nat): (r: Result<string>)
    ensures r.Ok? <==> content.Some?
    ensures r.Err? ==> r.msg == "metadata file not found: " + display
    ensures r.Ok? ==> |r.value| >= 2 && r.value[0] == '?'
  {
    match content
    case None => Err("metadata file not found: " + display)
    case Some(bytes) => Ok("?" + Hex(xxh3(bytes)))
  }

  /** The hash reads back from the query. */
  lemma HashQueryRoundTrip(display: string, content: seq<bv8>, xxh3: seq<bv8> -> nat)
    ensures var q := HashQuery(display, Some(content), xxh3).value;
      && HexValue(q[1..]) == xxh3(content)
      && forall i :: 1 <= i < |q| ==> IsLowerHexDigit(q[i])
  {
    var q := HashQuery(display, Some(content), xxh3).value;
    assert q[1..] == Hex(xxh3(content));
    HexRoundTrip(xxh3(content));
  }
}
