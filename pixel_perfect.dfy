/**
 * `calculateScaling` of the pixel-perfect preview image: the decoded image is
 * scaled to 80% of the tighter container dimension and centred.
 */
module PixelPerfect {
  import opened Wrappers

  /** The decoded size of the previewed image. */
  datatype Picture = Picture(width: real, height: real)

  /** The scale factor and top-left corner the image is drawn with. */
  datatype Scaling = Scaling(scale: real, x: real, y: real)

  function Min(a: real, b: real): (m: real)
    ensures m <= a && m <= b && (m == a || m == b)
  {
    if a <= b then a else b
  }

  /**
   * `calculateScaling`: without an image, `pixelSize` at the origin;
   * otherwise 0.8 of the smaller of the two container-to-image ratios,
   * with equal margins on opposite sides.
   */
  function CalculateScaling(image: Option<Picture>, pixelSize: real, containerWidth: real, containerHeight: real): (r: Scaling)
    requires image.Some? ==> image.value.width > 0.0 && image.value.height > 0.0
    ensures image.None? ==> r == Scaling(pixelSize, 0.0, 0.0)
    ensures image.Some? ==>
      var w, h := image.value.width, image.value.height;
      r.scale == 0.8 * Min(containerWidth / w, containerHeight / h)
      && 2.0 * r.x + w * r.scale == containerWidth
      && 2.0 * r.y + h * r.scale == containerHeight
  {
    if image.None? then Scaling(pixelSize, 0.0, 0.0)
    else
      var scaleX := containerWidth / image.value.width;
      var scaleY := containerHeight / image.value.height;
      var scale := Min(scaleX, scaleY) * 0.8;
      Scaling(scale, (containerWidth - image.value.width * scale) / 2.0,
              (containerHeight - image.value.height * scale) / 2.0)
  }

  /** The drawn size: the image's size times the scale, or nothing without an image. */
  function RenderedSize(image: Option<Picture>, s: Scaling): (size: (real, real))
    ensures image.None? ==> size == (0.0, 0.0)
    ensures image.Some? ==> size == (image.value.width * s.scale, image.value.height * s.scale)
  {
    if image.None? then (0.0, 0.0) else (image.value.width * s.scale, image.value.height * s.scale)
  }

  /** `w * (c / w) == c` for a positive `w`. */
  lemma CancelRatio(w: real, c: real)
    requires w > 0.0
    ensures w * (c / w) == c
  {
  }

  /** `w * a <= w * b` when `a <= b` and `w` is positive. */
  lemma ScaleMono(w: real, a: real, b: real)
    requires w > 0.0 && a <= b
    ensures w * a <= w * b
  {
    assert w * b - w * a == w * (b - a);
  }

  /**
   * In a non-empty container the drawn image is at most 80% of the
   * container in each dimension, sits strictly inside it with a positive
   * margin on every side, and keeps the image's aspect ratio; the limiting
   * dimension is filled to exactly 80%.
   */
  lemma ScalingFitsAndCentres(w: real, h: real, pixelSize: real, containerWidth: real, containerHeight: real)
    requires w > 0.0 && h > 0.0 && containerWidth > 0.0 && containerHeight > 0.0
    ensures var image := Some(Picture(w, h));
      var s := CalculateScaling(image, pixelSize, containerWidth, containerHeight);
      var size := RenderedSize(image, s);
      size.0 <= 0.8 * containerWidth && size.1 <= 0.8 * containerHeight
      && (size.0 == 0.8 * containerWidth || size.1 == 0.8 * containerHeight)
      && s.x > 0.0 && s.y > 0.0
      && size.0 * h == size.1 * w
  {
    var image := Some(Picture(w, h));
    var s := CalculateScaling(image, pixelSize, containerWidth, containerHeight);
    var m := Min(containerWidth / w, containerHeight / h);
    assert s.scale == 0.8 * m;
    ScaleMono(w, m, containerWidth / w);
    CancelRatio(w, containerWidth);
    ScaleMono(h, m, containerHeight / h);
    CancelRatio(h, containerHeight);
    assert w * s.scale == 0.8 * (w * m);
    assert h * s.scale == 0.8 * (h * m);
    assert (w * s.scale) * h == (h * s.scale) * w;
  }
}
