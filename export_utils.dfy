/**
 * The exporters of `exportUtils.ts` with options: the GIF exporter's
 * encoder set-up, the padded sprite-sheet layout with its optional metadata
 * file, the metadata file name, and the validation of an imported project
 * file. Image decoding is reduced to the decoded size of each frame and
 * the canvas to the draw positions; the saved files are the results.
 */
module ExportUtils {
  import opened Wrappers
  import opened FrameTypes
  import SheetLayout
  import AnimationUtils

  // ---------------------------------------------------------------------------
  // GIF

  datatype GifExportOptions = GifExportOptions(filename: string, fps: real, loop: bool)

  /** The encoder's `repeat` option: 0 repeats forever, -1 plays once. */
  function RepeatFlag(loop: bool): (r: int)
    ensures loop <==> r == 0
    ensures !loop <==> r == -1
  {
    if loop then 0 else -1
  }

  /**
   * `exportGifWithOptions`: the encoder sized like the first frame, with the
   * repeat flag of `options.loop`, and one `1000 / fps` delay per frame
   * drawn. `hasContext` is whether the browser hands out 2D contexts; a
   * frame whose canvas has none is skipped.
   */
  function ExportGif(frames: seq<string>, images: seq<ImageSize>, options: GifExportOptions, hasContext: bool): (r: Result<AnimationUtils.GifPlan>)
    requires |images| == |frames| && options.fps > 0.0
    ensures frames == [] <==> r == Err("No frames to export")
    ensures r.Ok? ==>
      r.value.width == images[0].width && r.value.height == images[0].height
      && r.value.repeat == Some(RepeatFlag(options.loop))
      && |r.value.delays| == (if hasContext then |frames| else 0)
      && forall i :: 0 <= i < |r.value.delays| ==> r.value.delays[i] * options.fps == 1000.0
  {
    if frames == [] then Err("No frames to export")
    else
      var delays := if hasContext then seq(|images|, _ => 1000.0 / options.fps) else [];
      Ok(AnimationUtils.GifPlan(images[0].width, images[0].height, Some(RepeatFlag(options.loop)), delays))
  }

  // ---------------------------------------------------------------------------
  // Sprite sheet

  datatype SpriteSheetExportOptions = SpriteSheetExportOptions(filename: string, columns: int, padding: int, includeMetadata: bool)

  /** One `frameData` entry of the metadata file. */
  datatype FrameData = FrameData(index: nat, row: nat, column: nat, x: int, y: int, width: nat, height: nat)

  /** The metadata file's content. */
  datatype SheetMetadata = SheetMetadata(
    spriteSheet: string, frames: nat, frameWidth: nat, frameHeight: nat,
    columns: int, rows: nat, padding: int,
    setId: string, setMetadata: Option<Metadata>,
    frameData: seq<FrameData>)

  /** The `frameData` comprehension. */
  function FrameDataOf(n: nat, frameWidth: nat, frameHeight: nat, padding: int, columns: int): (r: seq<FrameData>)
    requires columns >= 1
    ensures |r| == n
  {
    seq(n, i requires 0 <= i < n =>
      FrameData(i, i / columns, i % columns, (i % columns) * (frameWidth + padding),
                (i / columns) * (frameHeight + padding), frameWidth, frameHeight))
  }

  /**
   * Each metadata entry names the cell the frame was drawn in: its row and
   * column give back its index, and its position is the drawn position.
   */
  lemma FrameDataMatchesDrawing(n: nat, frameWidth: nat, frameHeight: nat, padding: int, columns: int, i: nat)
    requires columns >= 1 && i < n
    ensures var d := FrameDataOf(n, frameWidth, frameHeight, padding, columns)[i];
      var p := SheetLayout.Placements(n, frameWidth, frameHeight, padding, columns)[i];
      d.index == i && d.row * columns + d.column == i && 0 <= d.column < columns
      && d.x == p.x && d.y == p.y && d.width == frameWidth && d.height == frameHeight
  {
    SheetLayout.CellIndex(i, columns);
  }

  /** The index of the last `.` in `s`. */
  function LastDot(s: string): (r: Option<nat>)
    ensures r.None? ==> '.' !in s
    ensures r.Some? ==> r.value < |s| && s[r.value] == '.' && '.' !in s[r.value + 1..]
  {
    if s == [] then None
    else if s[|s| - 1] == '.' then Some(|s| - 1)
    else
      var r := LastDot(s[..|s| - 1]);
      assert r.Some? ==> s[r.value + 1..] == s[..|s| - 1][r.value + 1..] + [s[|s| - 1]];
      assert r.None? ==> s == s[..|s| - 1] + [s[|s| - 1]];
      r
  }

  /** `s` ends in an extension starting at `k`: a dot and at least one character other than `.` and `/`. */
  ghost predicate ExtensionAt(s: string, k: int) {
    0 <= k < |s| - 1 && s[k] == '.' && forall j :: k < j < |s| ==> s[j] != '.' && s[j] != '/'
  }

  /** `filename.replace(/\.[^/.]+$/, '')`: a trailing extension removed, if there is one. */
  function StripExtension(s: string): (r: string)
    ensures forall k :: ExtensionAt(s, k) ==> r == s[..k]
    ensures (forall k :: !ExtensionAt(s, k)) ==> r == s
  {
    match LastDot(s)
    case Some(k) =>
      if k < |s| - 1 && '/' !in s[k + 1..] then
        assert ExtensionAt(s, k) by {
          forall j | k < j < |s| ensures s[j] != '.' && s[j] != '/' {
            assert s[j] == s[k + 1..][j - k - 1];
          }
        }
        s[..k]
      else
        s
    case None =>
      s
  }

  /** The metadata file name: the sheet's name without its extension, plus `.json`. */
  function MetadataFilename(filename: string): string {
    StripExtension(filename) + ".json"
  }

  /** A name with an extension gets that extension replaced by `.json`. */
  lemma MetadataFilenameReplacesExtension(base: string, ext: string)
    requires ext != [] && '.' !in ext && '/' !in ext
    ensures MetadataFilename(base + "." + ext) == base + ".json"
  {
    var s := base + "." + ext;
    assert ExtensionAt(s, |base|) by {
      forall j | |base| < j < |s| ensures s[j] != '.' && s[j] != '/' {
        assert s[j] == ext[j - |base| - 1];
      }
    }
    assert s[..|base|] == base;
  }

  /** A name without an extension just gets `.json` appended. */
  lemma MetadataFilenameWithoutExtension(name: string)
    requires '.' !in name
    ensures MetadataFilename(name) == name + ".json"
  {
  }

  /** What the sheet exporter saves: the drawn sheet and, when asked for, its metadata file. */
  datatype SheetExport = SheetExport(sheet: AnimationUtils.SheetPlan, metadataFile: Option<(string, SheetMetadata)>)

  /**
   * `exportSpriteSheetWithOptions`: the padded sheet layout; with
   * `includeMetadata` and a sprite set, the metadata file as well.
   */
  method ExportSpriteSheet(frames: seq<string>, images: seq<ImageSize>, options: SpriteSheetExportOptions,
                           hasContext: bool, spriteSet: Option<SpriteSet>) returns (r: Result<SheetExport>)
    requires |images| == |frames| && options.columns >= 1
    ensures frames == [] ==> r == Err("No frames to export")
    ensures frames != [] && !hasContext ==> r == Err("Could not get canvas context")
    ensures frames != [] && hasContext ==> r.Ok?
    ensures r.Ok? ==>
      var fw, fh, n, columns, padding := images[0].width, images[0].height, |images|, options.columns, options.padding;
      var rows := SheetLayout.Rows(n, columns);
      r.value.sheet == AnimationUtils.SheetPlan(
        SheetLayout.CanvasWidth(fw, padding, columns, n), SheetLayout.CanvasHeight(fh, padding, columns, n),
        rows, SheetLayout.Placements(n, fw, fh, padding, columns))
      && (options.includeMetadata && spriteSet.Some? <==> r.value.metadataFile.Some?)
      && (r.value.metadataFile.Some? ==>
            r.value.metadataFile.value == (MetadataFilename(options.filename), SheetMetadata(
              options.filename, n, fw, fh, columns, rows, padding, spriteSet.value.id, spriteSet.value.metadata,
              FrameDataOf(n, fw, fh, padding, columns))))
  {
    if |frames| == 0 {
      return Err("No frames to export");
    }
    var frameWidth, frameHeight := images[0].width, images[0].height;
    var columns, padding := options.columns, options.padding;
    var rows := SheetLayout.Rows(|images|, columns);
    var width := SheetLayout.CanvasWidth(frameWidth, padding, columns, |images|);
    var height := SheetLayout.CanvasHeight(frameHeight, padding, columns, |images|);
    if !hasContext {
      return Err("Could not get canvas context");
    }
    var draws := SheetLayout.DrawFrames(|images|, frameWidth, frameHeight, padding, columns);
    var metadataFile := None;
    if options.includeMetadata && spriteSet.Some? {
      var metadata := SheetMetadata(options.filename, |images|, frameWidth, frameHeight, columns, rows, padding,
                                    spriteSet.value.id, spriteSet.value.metadata,
                                    FrameDataOf(|images|, frameWidth, frameHeight, padding, columns));
      metadataFile := Some((MetadataFilename(options.filename), metadata));
    }
    r := Ok(SheetExport(AnimationUtils.SheetPlan(width, height, rows, draws), metadataFile));
  }

  // ---------------------------------------------------------------------------
  // Project import

  /** A parsed JSON document. */
  datatype Json =
    | JNull
    | JBool(b: bool)
    | JNumber(n: real)
    | JString(s: string)
    | JArray(elems: seq<Json>)
    | JObject(fields: map<string, Json>)

  /** The message of the `TypeError` raised by reading a property of `null`. */
  const NullPropertyError := "Cannot read properties of null (reading 'spriteSets')"

  /** The message of the `SyntaxError` raised by `JSON.parse` on malformed text. */
  const ParseError := "Unexpected token in JSON"

  /**
   * `importProject`: `content` is what the file reader produced (`None` when
   * it failed), `parse` stands for `JSON.parse` (`None` when it throws).
   * The sprite sets are returned as parsed, without further checks.
   */
  function ImportProject(content: Option<string>, parse: string -> Option<Json>): (r: Result<seq<Json>>)
    ensures content.None? || content == Some("") ==> r == Err("Failed to read file")
    ensures r.Ok? <==>
      content.Some? && content.value != "" && parse(content.value).Some?
      && parse(content.value).value.JObject? && "spriteSets" in parse(content.value).value.fields
      && parse(content.value).value.fields["spriteSets"].JArray?
    ensures r.Ok? ==> r.value == parse(content.value).value.fields["spriteSets"].elems
    ensures (content.Some? && content.value != "" && parse(content.value).Some?
             && parse(content.value).value != JNull && !r.Ok?) ==> r == Err("Invalid project file format")
  {
    if content.None? || content.value == "" then Err("Failed to read file")
    else match parse(content.value)
      case None => Err(ParseError)
      case Some(JNull) => Err(NullPropertyError)
      case Some(JObject(fields)) =>
        if "spriteSets" in fields && fields["spriteSets"].JArray? then Ok(fields["spriteSets"].elems)
        else Err("Invalid project file format")
      case Some(_) => Err("Invalid project file format")
  }

  /** A document whose `spriteSets` is an array imports exactly that array. */
  lemma ImportAcceptsProjectObject(content: string, parse: string -> Option<Json>, sets: seq<Json>, others: map<string, Json>)
    requires content != "" && parse(content) == Some(JObject(others["spriteSets" := JArray(sets)]))
    ensures ImportProject(Some(content), parse) == Ok(sets)
  {
  }
}
