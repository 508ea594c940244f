/**
 * The records shared by the frame manager, the page, the slicing dialog and
 * the placeholder generator: `Frame`, `SpriteSet` and its metadata, and the
 * one numbering scheme the application uses whenever it turns a list of
 * image sources into frames (`id` = position + 1, `filename` = "<id>.png").
 */
module FrameTypes {
  import opened Wrappers
  import opened Text

  datatype Frame = Frame(id: int, filename: string, src: string)

  datatype Metadata = Metadata(
    style: string,
    obj: string,
    action: string,
    background: string,
    prompt: Option<string>,
    createdAt: string)

  datatype SpriteSet = SpriteSet(
    id: string,
    name: Option<string>,
    frames: seq<string>,
    thumbnails: seq<string>,
    metadata: Option<Metadata>)

  /** A decoded image: the model keeps only its size in pixels. */
  datatype ImageSize = ImageSize(width: nat, height: nat)

  /** `frames.map(frame => frame.src)` */
  function Sources(frames: seq<Frame>): (r: seq<string>)
    ensures |r| == |frames|
  {
    seq(|frames|, i requires 0 <= i < |frames| => frames[i].src)
  }

  /** "<n>.png" */
  function PngName(n: nat): string {
    Decimal(n) + ".png"
  }

  /** `srcs.map((src, index) => ({ id: index + 1, filename: `${index + 1}.png`, src }))` */
  function NumberedFrames(srcs: seq<string>): (r: seq<Frame>)
    ensures |r| == |srcs|
  {
    seq(|srcs|, i requires 0 <= i < |srcs| => Frame(i + 1, PngName(i + 1), srcs[i]))
  }

  /** Numbering keeps the sources, in order, and gives frame i the id i + 1 and the name "<i+1>.png". */
  lemma NumberedFramesFacts(srcs: seq<string>)
    ensures Sources(NumberedFrames(srcs)) == srcs
    ensures forall i :: 0 <= i < |srcs| ==>
      NumberedFrames(srcs)[i].id == i + 1 && NumberedFrames(srcs)[i].filename == Decimal(i + 1) + ".png"
  {
  }

  /** No two numbered frames share an id or a filename. */
  lemma NumberedFramesDistinct(srcs: seq<string>, i: int, j: int)
    requires 0 <= i < j < |srcs|
    ensures NumberedFrames(srcs)[i].id != NumberedFrames(srcs)[j].id
    ensures NumberedFrames(srcs)[i].filename != NumberedFrames(srcs)[j].filename
  {
    var fi, fj := NumberedFrames(srcs)[i].filename, NumberedFrames(srcs)[j].filename;
    if fi == fj {
      assert fi[..|fi| - 4] == Decimal(i + 1);
      assert fj[..|fj| - 4] == Decimal(j + 1);
      DecimalInjective(i + 1, j + 1);
    }
  }
}
