/**
 * The animation helpers of `animationUtils.ts`: the speed-to-fps mapping, the
 * GIF and sprite-sheet builders (with image decoding reduced to the decoded
 * width and height of each frame, and the canvas to the list of draw
 * positions), the data-URL to blob conversion of the sheet exporter, and the
 * placeholder frame generator.
 */
module AnimationUtils {
  import opened Wrappers
  import opened Text
  import opened FrameTypes
  import SheetLayout

  // ---------------------------------------------------------------------------
  // Frames per second

  /** `calculateFps`: the speed setting scaled by 2.4 and clamped into [1, 24]. */
  function CalculateFps(speed: real): (fps: real)
    ensures 1.0 <= fps <= 24.0
    ensures 1.0 <= speed * 2.4 <= 24.0 ==> fps == speed * 2.4
  {
    if speed * 2.4 > 24.0 then 24.0
    else if speed * 2.4 < 1.0 then 1.0
    else speed * 2.4
  }

  /** A faster setting never gives a lower frame rate, and the whole speed range 1..10 is unclamped. */
  lemma CalculateFpsMonotone(a: real, b: real)
    requires a <= b
    ensures CalculateFps(a) <= CalculateFps(b)
    ensures 1.0 <= a <= 10.0 ==> CalculateFps(a) == a * 2.4
  {
  }

  // ---------------------------------------------------------------------------
  // GIF and sprite-sheet builders

  /**
   * What the GIF encoder is configured with: the canvas size, the `repeat`
   * option (`None` leaves the encoder's default), and one delay per frame.
   */
  datatype GifPlan = GifPlan(width: nat, height: nat, repeat: Option<int>, delays: seq<real>)

  /**
   * `createGif`: every frame on a canvas the size of the first, shown for
   * 1000 / fps ms. `hasContext` is whether the browser hands out 2D
   * contexts; a frame whose canvas has none is not added.
   */
  function CreateGif(images: seq<ImageSize>, fps: real, hasContext: bool): (r: Result<GifPlan>)
    requires fps > 0.0
    ensures images == [] <==> r == Err("No frames provided")
    ensures r.Ok? ==>
      r.value.width == images[0].width && r.value.height == images[0].height
      && r.value.repeat == None
      && |r.value.delays| == (if hasContext then |images| else 0)
      && forall i :: 0 <= i < |r.value.delays| ==> r.value.delays[i] * fps == 1000.0
  {
    if images == [] then Err("No frames provided")
    else
      var delays := if hasContext then seq(|images|, _ => 1000.0 / fps) else [];
      Ok(GifPlan(images[0].width, images[0].height, None, delays))
  }

  /** The canvas size and the position every frame is drawn at. */
  datatype SheetPlan = SheetPlan(width: int, height: int, rows: nat, placements: seq<SheetLayout.Placement>)

  /**
   * `createSpriteSheet`: the sheet layout with no padding. `hasContext` is
   * whether the browser hands out a 2D context for the canvas.
   */
  method CreateSpriteSheet(images: seq<ImageSize>, columns: int, hasContext: bool) returns (r: Result<SheetPlan>)
    requires columns >= 1
    ensures images == [] ==> r == Err("No frames provided")
    ensures images != [] && !hasContext ==> r == Err("Could not get canvas context")
    ensures images != [] && hasContext ==> r.Ok?
    ensures r.Ok? ==>
      var fw, fh, n := images[0].width, images[0].height, |images|;
      r.value.rows == SheetLayout.Rows(n, columns)
      && r.value.width == fw * SheetLayout.Min(columns, n)
      && r.value.height == fh * r.value.rows
      && r.value.placements == SheetLayout.Placements(n, fw, fh, 0, columns)
  {
    if images == [] {
      return Err("No frames provided");
    }
    var fw, fh, n := images[0].width, images[0].height, |images|;
    var rows := SheetLayout.Rows(n, columns);
    if !hasContext {
      return Err("Could not get canvas context");
    }
    var placements := SheetLayout.DrawFrames(n, fw, fh, 0, columns);
    r := Ok(SheetPlan(SheetLayout.CanvasWidth(fw, 0, columns, n), SheetLayout.CanvasHeight(fh, 0, columns, n), rows, placements));
  }

  // ---------------------------------------------------------------------------
  // Data URL to bytes (`exportSpriteSheet`)

  /** `dataUrl.split(',')[0].split(':')[1].split(';')[0]`; `None` where the runtime would throw. */
  function MimeOf(dataUrl: string): (r: Option<string>)
    ensures r.Some? ==> ',' !in r.value && ':' !in r.value && ';' !in r.value
  {
    match After(Before(dataUrl, ','), ':')
    case None => None
    case Some(t) => Some(Before(Before(t, ':'), ';'))
  }

  /** `dataUrl.split(',')[1]`, the base64 payload; `None` for a URL without a comma. */
  function Payload(dataUrl: string): (r: Option<string>)
    ensures r.Some? ==> ',' !in r.value
    ensures r.None? <==> ',' !in dataUrl
  {
    match After(dataUrl, ',')
    case None => None
    case Some(t) => Some(Before(t, ','))
  }

  /** A base64 data URL built from a MIME type and a payload is parsed back into the two. */
  lemma DataUrlRoundTrip(mime: string, payload: string)
    requires ',' !in mime && ':' !in mime && ';' !in mime && ',' !in payload
    ensures MimeOf("data:" + mime + ";base64," + payload) == Some(mime)
    ensures Payload("data:" + mime + ";base64," + payload) == Some(payload)
  {
    var typePart := mime + [';'] + "base64";
    var head := ['d', 'a', 't', 'a'] + [':'] + typePart;
    var url := head + [','] + payload;
    assert "data:" + mime + ";base64," + payload == url;
    assert ',' !in "base64" && ':' !in "base64";
    assert ',' !in typePart && ':' !in typePart;
    SplitAtFirst(head, ',', payload);
    assert Before(url, ',') == head && After(url, ',') == Some(payload);
    SplitAtFirst(['d', 'a', 't', 'a'], ':', typePart);
    assert After(head, ':') == Some(typePart);
    NoDelimiter(typePart, ':');
    SplitAtFirst(mime, ';', "base64");
    assert Before(Before(typePart, ':'), ';') == mime;
    NoDelimiter(payload, ',');
  }

  lemma {:induction false} NoDelimiter(s: string, c: char)
    requires c !in s
    ensures Before(s, c) == s
  {
    if s != [] {
      assert c !in s[1..];
      NoDelimiter(s[1..], c);
    }
  }

  /** A store into a `Uint8Array` element keeps the low eight bits. */
  function ByteOf(c: char): (b: int)
    ensures 0 <= b < 256
    ensures c as int < 256 ==> b == c as int
  {
    (c as int) % 256
  }

  /** The loop that copies `byteString` into a fresh `Uint8Array`. */
  method CopyBytes(byteString: string) returns (ia: array<int>)
    ensures fresh(ia) && ia.Length == |byteString|
    ensures forall i :: 0 <= i < ia.Length ==> ia[i] == ByteOf(byteString[i])
  {
    ia := new int[|byteString|];
    for i := 0 to |byteString|
      invariant forall j :: 0 <= j < i ==> ia[j] == ByteOf(byteString[j])
    {
      ia[i] := ByteOf(byteString[i]);
    }
  }

  // ---------------------------------------------------------------------------
  // Placeholder frames

  /** The colour table of the placeholder generator, with its default. */
  function BaseColour(obj: string): (c: string)
    ensures obj == "goblin" ==> c == "#8BC34A"
    ensures obj == "knight" ==> c == "#3F51B5"
    ensures obj == "mage" ==> c == "#9C27B0"
    ensures obj == "archer" ==> c == "#FF9800"
    ensures obj != "goblin" && obj != "knight" && obj != "mage" && obj != "archer" ==> c == "#2196F3"
  {
    match obj
    case "goblin" => "#8BC34A"
    case "knight" => "#3F51B5"
    case "mage" => "#9C27B0"
    case "archer" => "#FF9800"
    case _ => "#2196F3"
  }

  /** A filled rectangle on the 32 by 32 placeholder canvas. */
  datatype Rect = Rect(x: int, y: int, w: int, h: int)

  predicate OnCanvas(r: Rect) {
    0 <= r.x && 0 <= r.w && r.x + r.w <= 32 && 0 <= r.y && 0 <= r.h && r.y + r.h <= 32
  }

  /**
   * The sprite shapes of frame `index` for the actions drawn with integer
   * geometry (walking, running, attacking); `None` for the poses computed with
   * sines and cosines.
   */
  function PoseRects(action: string, index: nat): (r: Option<seq<Rect>>)
    ensures r.Some? ==> forall k :: 0 <= k < |r.value| ==> OnCanvas(r.value[k])
  {
    if action == "walking" || action == "running" then
      var offsetX := (index % 4) * 2;
      Some([Rect(8 + offsetX, 8, 16, 16), Rect(12 + offsetX, 24, 2, 8), Rect(18 + offsetX, 24, 2, 8)])
    else if action == "attacking" then
      var armExtension := if 8 <= (index % 4) * 3 then 8 else (index % 4) * 3;
      Some([Rect(8, 8, 16, 16), Rect(24, 12, armExtension, 2)])
    else None
  }

  /** The integer-geometry poses repeat every four frames. */
  lemma PoseCycle(action: string, index: nat)
    ensures PoseRects(action, index + 4) == PoseRects(action, index)
  {
    assert (index + 4) % 4 == index % 4;
  }

  /** What one placeholder canvas is drawn from. */
  datatype PlaceholderSpec = PlaceholderSpec(style: string, colour: string, action: string, index: nat, count: nat)

  /**
   * `generatePlaceholderFrames`. `render` stands for drawing one canvas and
   * encoding it as a data URL.
   */
  function GeneratePlaceholderFrames(
    style: string, obj: string, action: string, count: nat,
    render: PlaceholderSpec -> string): (r: seq<Frame>)
    ensures |r| == count
    ensures forall i :: 0 <= i < count ==>
      r[i].id == i + 1 && r[i].filename == Decimal(i + 1) + ".png"
      && r[i].src == render(PlaceholderSpec(style, BaseColour(obj), action, i, count))
  {
    var srcs := seq(count, i requires 0 <= i < count => render(PlaceholderSpec(style, BaseColour(obj), action, i, count)));
    NumberedFramesFacts(srcs);
    NumberedFrames(srcs)
  }
}
