/** The content-addressed SVG cache of the render handlers
    (backend/controllers/renderController.js). The cache directory is a map from file
    name to file contents. MD5 (RFC 1321) is a digest function fixed when the cache is
    built; the renderers are functions passed per request, and either may fail. */
module RenderCache {
  import opened Common
  import Hex

  /** mermaid-cli (`npx mmdc`) run on a source file: the SVG it writes, or the error. */
  type CliRenderer = string -> Result<string, string>

  /** `mermaid.render(id, source)` of the mermaid library: the SVG, or the error. */
  type LibraryRenderer = (string, string) -> Result<string, string>

  datatype Response =
    | Svg(svg: string)
    | RenderFailed(message: string, error: string, fallback: bool)
    | Failure(status: int, message: string)

  function Status(r: Response): int
  {
    match r
    case Svg(_) => 200
    case RenderFailed(_, _, _) => 500
    case Failure(status, _) => status
  }

  const ContentRequired := "Diagram content is required"

  lemma ExtensionsDiffer(a: string, b: string)
    ensures a + ".svg" != b + ".mmd"
  {
    var x, y := a + ".svg", b + ".mmd";
    if |x| == |y| {
      assert x[|x| - 1] == 'g' && y[|y| - 1] == 'd';
    }
  }

  class CacheDirectory {
    var files: map<string, string>
    /** How many times a renderer has been started; it tells a cache hit from a render. */
    ghost var renders: nat
    const md5: string -> seq<bv8>

    constructor (md5: string -> seq<bv8>)
      ensures files == map[] && renders == 0 && this.md5 == md5
    {
      files := map[];
      renders := 0;
      this.md5 := md5;
    }

    /** `generateHash`: the hex MD5 digest of the source, the cache key. */
    function ContentHash(content: string): (h: string)
      ensures |h| == 2 * |md5(content)|
      ensures forall i :: 0 <= i < |h| ==> Hex.IsHexDigit(h[i])
    {
      Hex.Encode(md5(content))
    }

    /** `<hash>.svg`: where the rendered diagram is kept. */
    function SvgFile(content: string): string
    {
      ContentHash(content) + ".svg"
    }

    /** `<hash>.mmd`: the temporary source file handed to mermaid-cli. */
    function SourceFile(content: string): string
    {
      ContentHash(content) + ".mmd"
    }

    /** The rendered file and the temporary file of any two sources never collide. */
    lemma FilesDiffer(c: string, d: string)
      ensures SvgFile(c) != SourceFile(d)
    {
      ExtensionsDiffer(ContentHash(c), ContentHash(d));
    }

    /** `renderDiagram`: 400 without content. A cached SVG is served as it is. Otherwise
        the source is written to `<hash>.mmd` and mermaid-cli is run; on success its SVG
        is at `<hash>.svg`, is returned, and the temporary file is deleted; on failure the
        response is a 500 with `fallback: true` and the temporary file stays. */
    method RenderDiagram(content: Option<string>, mmdc: CliRenderer) returns (r: Response)
      modifies this
      ensures !Provided(content) ==>
                r == Failure(400, ContentRequired) && files == old(files) && renders == old(renders)
      ensures Provided(content) && SvgFile(content.value) in old(files) ==>
                r == Svg(old(files)[SvgFile(content.value)]) && files == old(files) && renders == old(renders)
      ensures Provided(content) && SvgFile(content.value) !in old(files) ==>
                var c := content.value;
                && renders == old(renders) + 1
                && match mmdc(c)
                   case Ok(svg) =>
                     r == Svg(svg) && files == old(files)[SvgFile(c) := svg] - {SourceFile(c)}
                   case Err(e) =>
                     r == RenderFailed("Error rendering diagram", e, true) && files == old(files)[SourceFile(c) := c]
    {
      if !Provided(content) {
        return Failure(400, ContentRequired);
      }
      var c := content.value;
      var svgFile := SvgFile(c);
      if svgFile in files {
        return Svg(files[svgFile]);
      }
      var tempFile := SourceFile(c);
      files := files[tempFile := c];
      renders := renders + 1;
      match mmdc(c)
      case Ok(output) =>
        files := files[svgFile := output];
        var svg := files[svgFile];
        files := files - {tempFile};
        r := Svg(svg);
      case Err(e) =>
        r := RenderFailed("Error rendering diagram", e, true);
    }

    /** `renderDiagramWithLibrary`: the same cache in front of the mermaid library, which
        renders in memory: on success the SVG is written to `<hash>.svg` and no temporary
        file is made; on failure nothing is written. */
    method RenderDiagramWithLibrary(content: Option<string>, mermaid: LibraryRenderer) returns (r: Response)
      modifies this
      ensures !Provided(content) ==>
                r == Failure(400, ContentRequired) && files == old(files) && renders == old(renders)
      ensures Provided(content) && SvgFile(content.value) in old(files) ==>
                r == Svg(old(files)[SvgFile(content.value)]) && files == old(files) && renders == old(renders)
      ensures Provided(content) && SvgFile(content.value) !in old(files) ==>
                var c := content.value;
                && renders == old(renders) + 1
                && match mermaid("diagram-" + ContentHash(c), c)
                   case Ok(svg) => r == Svg(svg) && files == old(files)[SvgFile(c) := svg]
                   case Err(e) => r == RenderFailed("Error rendering diagram", e, true) && files == old(files)
    {
      if !Provided(content) {
        return Failure(400, ContentRequired);
      }
      var c := content.value;
      var svgFile := SvgFile(c);
      if svgFile in files {
        return Svg(files[svgFile]);
      }
      renders := renders + 1;
      match mermaid("diagram-" + ContentHash(c), c)
      case Ok(svg) =>
        files := files[svgFile := svg];
        r := Svg(svg);
      case Err(e) =>
        r := RenderFailed("Error rendering diagram", e, true);
    }

    /** Rendering one source twice: once the first call has produced an SVG, the second
        is a cache hit that returns the identical SVG, starts no renderer and writes
        nothing; after a successful render no temporary file is left. */
    method RenderTwice(content: Option<string>, first: CliRenderer, second: CliRenderer)
      returns (r1: Response, r2: Response, ghost between: map<string, string>, ghost rendersBetween: nat)
      modifies this
      ensures r1.Svg? ==> r2 == r1 && files == between && renders == rendersBetween
      ensures r1.Svg? ==>
                Provided(content)
                && renders == old(renders) + (if SvgFile(content.value) in old(files) then 0 else 1)
      ensures Provided(content) && r1.Svg? && SvgFile(content.value) !in old(files) ==>
                renders == old(renders) + 1 && SourceFile(content.value) !in files
    {
      r1 := RenderDiagram(content, first);
      between, rendersBetween := files, renders;
      if r1.Svg? {
        FilesDiffer(content.value, content.value);
      }
      r2 := RenderDiagram(content, second);
    }
  }
}
