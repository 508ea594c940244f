/**
 * The sprite-sheet slicer of the special-mode dialog: the uploaded image is
 * fitted into a 500 by 400 preview, evenly spaced cut lines are seeded over
 * it, the user drags the lines with the mouse, and the image is cut along
 * the lines (scaled back to the image's own size) into frames.
 *
 * Canvas work is abstracted: a slice records the rectangle of the original
 * image it was copied from instead of the encoded pixels.
 */
module GridSlicer {
  import opened Wrappers
  import opened Text
  import opened Sorting
  import opened FrameTypes
  import Easing
  import Seqs

  datatype Orientation = Horizontal | Vertical | Grid

  // ---------------------------------------------------------------------------
  // Number inputs

  /**
   * `Math.max(lo, Math.min(hi, parseInt(value) || fallback))`. `parsed` is
   * the result of `parseInt` (`None` for NaN); 0 is falsy and so also falls
   * back.
   */
  function ClampInput(parsed: Option<int>, lo: int, hi: int, fallback: int): (r: int)
    requires lo <= hi
    ensures lo <= r <= hi
    ensures (parsed == None || parsed == Some(0)) && lo <= fallback <= hi ==> r == fallback
    ensures parsed.Some? && parsed.value != 0 && lo <= parsed.value <= hi ==> r == parsed.value
    ensures parsed.Some? && parsed.value != 0 && parsed.value < lo ==> r == lo
    ensures parsed.Some? && parsed.value != 0 && parsed.value > hi ==> r == hi
  {
    var v := if parsed.None? || parsed.value == 0 then fallback else parsed.value;
    if v < lo then lo else if v > hi then hi else v
  }

  /** The "Number of Frames" input: always 2..12, 2 for anything unreadable. */
  function FrameCountInput(parsed: Option<int>): (r: int)
    ensures 2 <= r <= 12
    ensures parsed.None? ==> r == 2
    ensures parsed.Some? && 2 <= parsed.value <= 12 ==> r == parsed.value
  {
    ClampInput(parsed, 2, 12, 2)
  }

  /** The "Animation Frames" input: always 1..24, 1 for anything unreadable. */
  function AnimationFramesInput(parsed: Option<int>): (r: int)
    ensures 1 <= r <= 24
    ensures parsed.None? ==> r == 1
    ensures parsed.Some? && 1 <= parsed.value <= 24 ==> r == parsed.value
  {
    ClampInput(parsed, 1, 24, 1)
  }

  // ---------------------------------------------------------------------------
  // Fitting the preview

  const MaxWidth: real := 500.0
  const MaxHeight: real := 400.0

  /** The factor the preview shrinks the image by: the smaller of the two axis limits, never above 1. */
  function FitScale(imgWidth: nat, imgHeight: nat): (s: real)
    ensures 0.0 < s <= 1.0
    ensures imgWidth as real * s <= MaxWidth && imgHeight as real * s <= MaxHeight
    ensures imgWidth as real <= MaxWidth && imgHeight as real <= MaxHeight ==> s == 1.0
  {
    var sx := if imgWidth as real > MaxWidth then MaxWidth / imgWidth as real else 1.0;
    var sy := if imgHeight as real > MaxHeight then MaxHeight / imgHeight as real else 1.0;
    if sx <= sy then sx else sy
  }

  /**
   * The fit in the preview effect: first the width is capped at 500 (the
   * height following), then the height at 400 (the width following).
   */
  method FitToViewport(imgWidth: nat, imgHeight: nat) returns (width: real, height: real)
    ensures width == imgWidth as real * FitScale(imgWidth, imgHeight)
    ensures height == imgHeight as real * FitScale(imgWidth, imgHeight)
    ensures width <= MaxWidth && height <= MaxHeight
    ensures width * imgHeight as real == height * imgWidth as real
    ensures imgWidth as real <= MaxWidth && imgHeight as real <= MaxHeight ==>
      width == imgWidth as real && height == imgHeight as real
  {
    var w, h := imgWidth as real, imgHeight as real;
    width, height := w, h;
    if width > MaxWidth {
      var ratio := MaxWidth / width;
      width := MaxWidth;
      height := height * ratio;
    }
    if height > MaxHeight {
      var ratio := MaxHeight / height;
      height := MaxHeight;
      width := width * ratio;
    }
    FitMatchesScale(imgWidth, imgHeight, width, height);
    Proportional(w, h, FitScale(imgWidth, imgHeight));
  }

  /** The capping steps of the fit amount to one uniform scale by `FitScale`. */
  lemma FitMatchesScale(imgWidth: nat, imgHeight: nat, width: real, height: real)
    requires var w, h := imgWidth as real, imgHeight as real;
      var w1 := if w > MaxWidth then MaxWidth else w;
      var h1 := if w > MaxWidth then h * (MaxWidth / w) else h;
      width == (if h1 > MaxHeight then w1 * (MaxHeight / h1) else w1)
      && height == (if h1 > MaxHeight then MaxHeight else h1)
    ensures width == imgWidth as real * FitScale(imgWidth, imgHeight)
    ensures height == imgHeight as real * FitScale(imgWidth, imgHeight)
  {
    var w, h := imgWidth as real, imgHeight as real;
    if w > MaxWidth {
      var a := MaxWidth / w;
      Ratio(MaxWidth, w);
      var h1 := h * a;
      if h1 > MaxHeight {
        WideThenTall(w, h, a, MaxHeight / h1);
        assert FitScale(imgWidth, imgHeight) == MaxHeight / h;
      } else {
        WideOnly(w, h, a);
        assert FitScale(imgWidth, imgHeight) == a;
      }
    } else if h > MaxHeight {
      Ratio(MaxHeight, h);
      assert FitScale(imgWidth, imgHeight) == MaxHeight / h;
    } else {
      assert FitScale(imgWidth, imgHeight) == 1.0;
    }
  }

  /** Scaling both sides by one factor keeps their ratio. */
  lemma Proportional(w: real, h: real, s: real)
    ensures (w * s) * h == (h * s) * w
  {
  }

  /** A quotient of two positive numbers, the smaller first, lies strictly between 0 and 1. */
  lemma Ratio(x: real, y: real)
    requires 0.0 < x < y
    ensures 0.0 < x / y < 1.0 && (x / y) * y == x
  {
    var q := x / y;
    assert q * y == x;
    if q <= 0.0 {
      Easing.ProductNonneg(-q, y);
    } else if q >= 1.0 {
      Easing.ProductNonneg(q - 1.0, y);
    }
  }

  /** Both caps apply: the combined factor `a * b` is the height factor, which is the smaller one. */
  lemma WideThenTall(w: real, h: real, a: real, b: real)
    requires w > MaxWidth && a == MaxWidth / w && 0.0 < a < 1.0 && a * w == MaxWidth
    requires h * a > MaxHeight && b == MaxHeight / (h * a)
    ensures h > MaxHeight && 0.0 < MaxHeight / h < a
    ensures MaxWidth * b == w * (MaxHeight / h) && MaxHeight == h * (MaxHeight / h)
  {
    assert h > MaxHeight by {
      if h <= MaxHeight {
        ProductLe(h, a);
      }
    }
    Ratio(MaxHeight, h * a);
    Ratio(MaxHeight, h);
    var c := MaxHeight / h;
    assert (c - a * b) * h == 0.0 by {
      assert c * h == MaxHeight;
      assert (a * b) * h == b * (h * a);
    }
    assert c == a * b;
    assert a * b < a * 1.0 by {
      ProductLt(a, b);
    }
    assert w * c == (a * w) * b;
  }

  /** Only the width cap applies: its factor is the smaller one. */
  lemma WideOnly(w: real, h: real, a: real)
    requires w > MaxWidth && a == MaxWidth / w && 0.0 < a < 1.0 && a * w == MaxWidth
    requires h >= 0.0 && h * a <= MaxHeight
    ensures h > MaxHeight ==> a <= MaxHeight / h
  {
    if h > MaxHeight {
      Ratio(MaxHeight, h);
      var c := MaxHeight / h;
      assert (c - a) * h == MaxHeight - h * a;
      if c < a {
        ProductPos(a - c, h);
      }
    }
  }

  lemma ProductPos(u: real, v: real)
    requires u > 0.0 && v > 0.0
    ensures u * v > 0.0
  {
  }

  /** Scaling a non-negative number by at most 1 does not enlarge it. */
  lemma ProductLe(h: real, a: real)
    requires h >= 0.0 && 0.0 <= a <= 1.0
    ensures h * a <= h
  {
    assert h - h * a == h * (1.0 - a);
  }

  /** Scaling a positive number by less than 1 shrinks it. */
  lemma ProductLt(a: real, b: real)
    requires a > 0.0 && b < 1.0
    ensures a * b < a * 1.0
  {
    assert a * 1.0 - a * b == a * (1.0 - b);
  }

  /**
   * After the fit the two per-axis factors of the split (`originalWidth /
   * imageSize.width` and `originalHeight / imageSize.height`) coincide.
   */
  lemma ScalesAgreeAfterFit(imgWidth: nat, imgHeight: nat)
    requires imgWidth > 0 && imgHeight > 0
    ensures var s := FitScale(imgWidth, imgHeight);
      imgWidth as real / (imgWidth as real * s) == imgHeight as real / (imgHeight as real * s)
  {
    var s := FitScale(imgWidth, imgHeight);
    assert imgWidth as real / (imgWidth as real * s) == 1.0 / s;
    assert imgHeight as real / (imgHeight as real * s) == 1.0 / s;
  }

  // ---------------------------------------------------------------------------
  // Seeding the cut lines

  /** Cut i of n even parts of `dim`, for i = 1..n-1: `i * (dim / n)`. */
  function EvenCuts(dim: real, n: int): (r: seq<real>)
    ensures |r| == if n >= 2 then n - 1 else 0
  {
    if n < 2 then []
    else seq(n - 1, i requires 0 <= i < n - 1 => (i + 1) as real * (dim / n as real))
  }

  function RealKey(v: real): real { v }

  /** The even cuts of a positive length increase strictly and lie strictly inside it. */
  lemma EvenCutsInside(dim: real, n: int)
    requires dim > 0.0
    ensures StrictlySortedBy(EvenCuts(dim, n), RealKey)
    ensures forall i :: 0 <= i < |EvenCuts(dim, n)| ==> 0.0 < EvenCuts(dim, n)[i] < dim
  {
    if n >= 2 {
      var c, part := EvenCuts(dim, n), dim / n as real;
      assert part > 0.0;
      assert n as real * part == dim;
      forall i, j | 0 <= i < j < |c| ensures c[i] < c[j] {
        var gap := (j - i) as real;
        assert c[j] - c[i] == gap * part;
        ProductPos(gap, part);
      }
      forall i | 0 <= i < |c| ensures 0.0 < c[i] < dim {
        var before, after := (i + 1) as real, (n - i - 1) as real;
        assert c[i] == before * part;
        ProductPos(before, part);
        assert dim - c[i] == after * part;
        ProductPos(after, part);
      }
    }
  }

  /** The `push` loops of the preview effect, one per axis that the orientation cuts. */
  method SeedGridLines(orientation: Orientation, width: real, height: real, frameCount: int)
    returns (xs: seq<real>, ys: seq<real>)
    ensures xs == if orientation == Horizontal || orientation == Grid then EvenCuts(width, frameCount) else []
    ensures ys == if orientation == Vertical || orientation == Grid then EvenCuts(height, frameCount) else []
  {
    xs, ys := [], [];
    if orientation == Horizontal || orientation == Grid {
      xs := PushEvenCuts(width, frameCount);
    }
    if orientation == Vertical || orientation == Grid {
      ys := PushEvenCuts(height, frameCount);
    }
  }

  /** One `push` loop: `i * (dim / frameCount)` for i = 1 .. frameCount - 1. */
  method PushEvenCuts(dim: real, frameCount: int) returns (lines: seq<real>)
    ensures lines == EvenCuts(dim, frameCount)
  {
    lines := [];
    var i := 1;
    while i < frameCount
      invariant i == 1 || 2 <= i <= frameCount
      invariant lines == EvenCuts(dim, frameCount)[..i - 1]
    {
      ghost var cuts := EvenCuts(dim, frameCount);
      assert cuts[i - 1] == i as real * (dim / frameCount as real);
      assert cuts[..i] == cuts[..i - 1] + [cuts[i - 1]];
      lines := lines + [i as real * (dim / frameCount as real)];
      i := i + 1;
    }
    assert frameCount >= 2 ==> lines == EvenCuts(dim, frameCount)[..frameCount - 1];
  }

  // ---------------------------------------------------------------------------
  // Dragging the cut lines

  datatype Axis = X | Y

  /** Which line is being dragged: `{ axis, index }`. */
  datatype Drag = Drag(axis: Axis, index: nat)

  datatype Point = Point(x: real, y: real)

  /** `Math.abs(p - line) < 10` */
  predicate Near(line: real, p: real) {
    if p >= line then p - line < 10.0 else line - p < 10.0
  }

  /** The first line within 10 pixels of `p`, as the hit-test loop finds it. */
  function FirstNear(lines: seq<real>, p: real): (r: Option<nat>)
    ensures r.Some? ==>
      (r.value < |lines| && Near(lines[r.value], p) && forall j :: 0 <= j < r.value ==> !Near(lines[j], p))
    ensures r.None? ==> forall j :: 0 <= j < |lines| ==> !Near(lines[j], p)
  {
    if lines == [] then None
    else if Near(lines[0], p) then Some(0)
    else match FirstNear(lines[1..], p)
      case None => None
      case Some(k) => Some(k + 1)
  }

  /** The lines after slot `index` is set to `p` and the list is sorted ascending. */
  function MoveLine(lines: seq<real>, index: nat, p: real): (r: seq<real>)
    requires index < |lines|
    ensures |r| == |lines| && SortedBy(r, RealKey)
    ensures multiset(r) == multiset(lines[index := p])
  {
    SortBy(lines[index := p], RealKey)
  }

  /**
   * The cut lines and the drag state of the preview canvas, with the three
   * mouse handlers. `x` holds the vertical lines (positions along the
   * width), `y` the horizontal ones.
   */
  class GridEditor {
    var x: seq<real>
    var y: seq<real>
    var isDragging: Option<Drag>
    var startPos: Point

    function Lines(axis: Axis): seq<real>
      reads this
    {
      if axis == X then x else y
    }

    /** A drag in progress points at an existing line. */
    ghost predicate Valid()
      reads this
    {
      isDragging.Some? ==> isDragging.value.index < |Lines(isDragging.value.axis)|
    }

    constructor ()
      ensures Valid()
      ensures x == [] && y == [] && isDragging == None && startPos == Point(0.0, 0.0)
    {
      x, y := [], [];
      isDragging := None;
      startPos := Point(0.0, 0.0);
    }

    /**
     * The preview effect setting the seeded lines. The effect runs when the
     * step, image or settings change, which needs the mouse off the canvas,
     * where leaving it has ended any drag.
     */
    method InitGridLines(orientation: Orientation, width: real, height: real, frameCount: int)
      requires isDragging == None
      modifies this
      ensures Valid() && isDragging == None && startPos == old(startPos)
      ensures x == if orientation == Horizontal || orientation == Grid then EvenCuts(width, frameCount) else []
      ensures y == if orientation == Vertical || orientation == Grid then EvenCuts(height, frameCount) else []
    {
      x, y := SeedGridLines(orientation, width, height, frameCount);
    }

    /**
     * `handleMouseDown` at cursor (px, py): the first vertical line within
     * 10 pixels of px starts a drag; only when there is none, the first
     * horizontal line within 10 pixels of py. With no line near, nothing
     * changes.
     */
    method MouseDown(px: real, py: real)
      requires Valid()
      modifies this
      ensures Valid() && x == old(x) && y == old(y)
      ensures FirstNear(x, px).Some? ==>
        isDragging == Some(Drag(X, FirstNear(x, px).value)) && startPos == Point(px, py)
      ensures FirstNear(x, px).None? && FirstNear(y, py).Some? ==>
        isDragging == Some(Drag(Y, FirstNear(y, py).value)) && startPos == Point(px, py)
      ensures FirstNear(x, px).None? && FirstNear(y, py).None? ==>
        isDragging == old(isDragging) && startPos == old(startPos)
    {
      for i := 0 to |x|
        invariant forall j :: 0 <= j < i ==> !Near(x[j], px)
      {
        if Near(x[i], px) {
          isDragging := Some(Drag(X, i));
          startPos := Point(px, py);
          return;
        }
      }
      for i := 0 to |y|
        invariant forall j :: 0 <= j < i ==> !Near(y[j], py)
      {
        if Near(y[i], py) {
          isDragging := Some(Drag(Y, i));
          startPos := Point(px, py);
          return;
        }
      }
    }

    /**
     * `handleMouseMove` at cursor (px, py): with no drag, nothing happens;
     * otherwise the dragged slot of its axis takes the cursor coordinate,
     * unclamped, and that axis is sorted ascending. The drag keeps its index.
     */
    method MouseMove(px: real, py: real)
      requires Valid()
      modifies this
      ensures Valid() && isDragging == old(isDragging) && startPos == old(startPos)
      ensures old(isDragging).None? ==> x == old(x) && y == old(y)
      ensures old(isDragging).Some? && old(isDragging).value.axis == X ==>
        x == MoveLine(old(x), old(isDragging).value.index, px) && y == old(y)
      ensures old(isDragging).Some? && old(isDragging).value.axis == Y ==>
        y == MoveLine(old(y), old(isDragging).value.index, py) && x == old(x)
    {
      if isDragging.None? {
        return;
      }
      var drag := isDragging.value;
      if drag.axis == X {
        x := MoveLine(x, drag.index, px);
      } else {
        y := MoveLine(y, drag.index, py);
      }
    }

    /** `handleMouseUp`, also wired to mouse-leave: the drag ends, the lines stay. */
    method MouseUp()
      modifies this
      ensures Valid() && isDragging == None
      ensures x == old(x) && y == old(y) && startPos == old(startPos)
    {
      isDragging := None;
    }
  }

  /**
   * A move keeps the line count and the order, and the lines are those
   * before with the dragged one replaced by the cursor coordinate; the
   * ordered result is the only list with these properties.
   */
  lemma MoveLineCharacterised(lines: seq<real>, index: nat, p: real, r: seq<real>)
    requires index < |lines|
    requires SortedBy(r, RealKey) && multiset(r) == multiset(lines[index := p])
    ensures r == MoveLine(lines, index, p)
  {
    assert KeyInjectiveOn(r, RealKey);
    SortedPermutationUnique(r, MoveLine(lines, index, p), RealKey);
  }

  /** Lines inside [0, limit] stay inside when the cursor is inside (the move does not clamp). */
  lemma MoveLineInBounds(lines: seq<real>, index: nat, p: real, limit: real)
    requires index < |lines|
    requires forall i :: 0 <= i < |lines| ==> 0.0 <= lines[i] <= limit
    requires 0.0 <= p <= limit
    ensures forall i :: 0 <= i < |lines| ==> 0.0 <= MoveLine(lines, index, p)[i] <= limit
  {
    var r, w := MoveLine(lines, index, p), lines[index := p];
    forall i | 0 <= i < |r| ensures 0.0 <= r[i] <= limit {
      assert r[i] in multiset(w);
      var j :| 0 <= j < |w| && w[j] == r[i];
    }
  }

  // ---------------------------------------------------------------------------
  // The drag index after a sort

  /** The first slot holding `v`. */
  function IndexOf(s: seq<real>, v: real): (k: nat)
    requires v in s
    ensures k < |s| && s[k] == v
  {
    if s[0] == v then 0 else IndexOf(s[1..], v) + 1
  }

  /**
   * The move with the drag index following the dragged line to the slot the
   * sort put it in, so that the next move writes the same line again.
   */
  function MoveTrackedLine(lines: seq<real>, index: nat, p: real): (r: (seq<real>, nat))
    requires index < |lines|
    ensures r.1 < |r.0| && r.0[r.1] == p
    ensures r.0 == MoveLine(lines, index, p)
  {
    var moved := MoveLine(lines, index, p);
    assert p in multiset(lines[index := p]);
    (moved, IndexOf(moved, p))
  }

  /**
   * With the index tracked, two moves of one drag leave every other line
   * where it was: the result holds the first lines minus the dragged one,
   * plus the last cursor coordinate.
   */
  lemma TrackedDragKeepsOtherLines(lines: seq<real>, index: nat, p1: real, p2: real)
    requires index < |lines|
    ensures var (l1, i1) := MoveTrackedLine(lines, index, p1);
      multiset(MoveTrackedLine(l1, i1, p2).0) == multiset(lines) - multiset{lines[index]} + multiset{p2}
  {
    var (l1, i1) := MoveTrackedLine(lines, index, p1);
    var l2 := MoveTrackedLine(l1, i1, p2).0;
    var others := multiset(lines) - multiset{lines[index]};
    UpdateMultiset(lines, index, p1);
    assert multiset(l1) == others + multiset{p1};
    UpdateMultiset(l1, i1, p2);
    assert multiset(l2) == others + multiset{p1} - multiset{p1} + multiset{p2};
    assert others + multiset{p1} - multiset{p1} == others;
  }

  /** Overwriting one slot swaps one occurrence of its old value for the new one. */
  lemma UpdateMultiset(s: seq<real>, i: nat, v: real)
    requires i < |s|
    ensures multiset(s[i := v]) == multiset(s) - multiset{s[i]} + multiset{v}
  {
  }

  /**
   * As written the index is not updated: dragging the line at `a` past the
   * one at `b` to `p` and then to `q` moves the line at `b` away and leaves
   * a line at `p`, where the user expects lines at `b` and `q` (for example
   * a, b, p, q = 100, 200, 250, 260).
   */
  lemma StaleDragIndexMovesNeighbour(a: real, b: real, p: real, q: real)
    requires a < b < p < q
    ensures MoveLine([a, b], 0, p) == [b, p]
    ensures MoveLine(MoveLine([a, b], 0, p), 0, q) == [p, q]
    ensures b !in MoveLine(MoveLine([a, b], 0, p), 0, q)
  {
    DragFirstPastSecond(a, b, p);
    DragFirstPastSecond(b, p, q);
  }

  /** Of two lines, the first dragged past the second ends up second. */
  lemma DragFirstPastSecond(a: real, b: real, p: real)
    requires b < p
    ensures MoveLine([a, b], 0, p) == [b, p]
  {
    assert [a, b][0 := p] == [p, b];
    assert multiset([b, p]) == multiset([p, b]);
    MoveLineCharacterised([a, b], 0, p, [b, p]);
  }

  // ---------------------------------------------------------------------------
  // Cutting the image

  /** Lines scaled from preview to image pixels: `lines.map(line => line * scale)`. */
  function Scaled(lines: seq<real>, scale: real): (r: seq<real>)
    ensures |r| == |lines|
  {
    seq(|lines|, i requires 0 <= i < |lines| => lines[i] * scale)
  }

  /** `[0, ...scaled lines, dim]` */
  function Cuts(lines: seq<real>, scale: real, dim: real): (c: seq<real>)
    ensures |c| == |lines| + 2 && c[0] == 0.0 && c[|c| - 1] == dim
    ensures forall i :: 0 <= i < |lines| ==> c[i + 1] == lines[i] * scale
  {
    [0.0] + Scaled(lines, scale) + [dim]
  }

  /** Ordered preview lines inside the preview give ordered cuts: every interval is non-negative. */
  lemma CutsOrdered(lines: seq<real>, display: real, dim: real)
    requires display > 0.0 && dim >= 0.0
    requires SortedBy(lines, RealKey)
    requires forall i :: 0 <= i < |lines| ==> 0.0 <= lines[i] <= display
    ensures SortedBy(Cuts(lines, dim / display, dim), RealKey)
  {
    var scale := dim / display;
    var c := Cuts(lines, scale, dim);
    assert scale >= 0.0 && display * scale == dim;
    forall i, j | 0 <= i < j < |c| ensures c[i] <= c[j] {
      if 0 < j < |c| - 1 {
        Easing.ProductNonneg(lines[j - 1], scale);
      }
      if 0 < i && j < |c| - 1 {
        MulMono(lines[i - 1], lines[j - 1], scale);
      } else if 0 < i {
        MulMono(lines[i - 1], display, scale);
      }
    }
  }

  /** Scaling by a non-negative factor keeps the order. */
  lemma MulMono(u: real, v: real, s: real)
    requires u <= v && s >= 0.0
    ensures u * s <= v * s
  {
    Easing.ProductNonneg(v - u, s);
  }

  /** The part of the original image one frame is copied from. */
  datatype Region = Region(x: real, y: real, width: real, height: real)

  /** A frame of the split: `{ id, filename, src }` with the copied region in place of `src`. */
  datatype Slice = Slice(id: int, filename: string, region: Region)

  function SliceName(n: nat): string {
    "frame_" + Decimal(n) + ".png"
  }

  lemma RowMajor(row: nat, col: nat, nx: nat)
    requires col < nx
    ensures (row * nx + col) / nx == row && (row * nx + col) % nx == col
  {
    var k := row * nx + col;
    var q, r := k / nx, k % nx;
    var d := q - row;
    assert d * nx == col - r;
  }

  lemma RowInGrid(k: nat, nx: nat, ny: nat)
    requires 0 < nx && k < nx * ny
    ensures k / nx < ny
  {
  }

  /** Cell k of the grid: row k / nx, column k % nx, numbered k + 1. */
  function GridCell(cx: seq<real>, cy: seq<real>, k: nat): Slice
    requires |cx| >= 2 && |cy| >= 2 && k < (|cx| - 1) * (|cy| - 1)
  {
    var nx := |cx| - 1;
    RowInGrid(k, nx, |cy| - 1);
    var row, col := k / nx, k % nx;
    Slice(k + 1, SliceName(k + 1), Region(cx[col], cy[row], cx[col + 1] - cx[col], cy[row + 1] - cy[row]))
  }

  /** Every cell of the grid, row by row. */
  function GridSlices(cx: seq<real>, cy: seq<real>): (r: seq<Slice>)
    requires |cx| >= 2 && |cy| >= 2
    ensures |r| == (|cx| - 1) * (|cy| - 1)
  {
    seq((|cx| - 1) * (|cy| - 1), k requires 0 <= k < (|cx| - 1) * (|cy| - 1) => GridCell(cx, cy, k))
  }

  /** One full-height strip per interval of `cx`. */
  function HorizontalStrips(cx: seq<real>, height: real): (r: seq<Slice>)
    requires |cx| >= 2
    ensures |r| == |cx| - 1
  {
    seq(|cx| - 1, i requires 0 <= i < |cx| - 1 => Slice(i + 1, SliceName(i + 1), Region(cx[i], 0.0, cx[i + 1] - cx[i], height)))
  }

  /** One full-width strip per interval of `cy`. */
  function VerticalStrips(cy: seq<real>, width: real): (r: seq<Slice>)
    requires |cy| >= 2
    ensures |r| == |cy| - 1
  {
    seq(|cy| - 1, i requires 0 <= i < |cy| - 1 => Slice(i + 1, SliceName(i + 1), Region(0.0, cy[i], width, cy[i + 1] - cy[i])))
  }

  /** Cell (row, col) of the grid is slice row * nx + col, numbered from 1, cut between the lines around it. */
  lemma CellAt(cx: seq<real>, cy: seq<real>, row: nat, col: nat)
    requires |cx| >= 2 && row < |cy| - 1 && col < |cx| - 1
    ensures var k := row * (|cx| - 1) + col;
      k < |GridSlices(cx, cy)|
      && GridSlices(cx, cy)[k]
         == Slice(k + 1, SliceName(k + 1), Region(cx[col], cy[row], cx[col + 1] - cx[col], cy[row + 1] - cy[row]))
  {
    var nx := |cx| - 1;
    var k := row * nx + col;
    RowMajor(row, col, nx);
    CellIndexBound(row, col, nx, |cy| - 1);
    assert GridSlices(cx, cy)[k] == GridCell(cx, cy, k);
  }

  /** The nested loops of the grid branch: rows of cells, top to bottom. */
  method SliceGrid(cx: seq<real>, cy: seq<real>) returns (frames: seq<Slice>)
    requires |cx| >= 2 && |cy| >= 2
    ensures frames == GridSlices(cx, cy)
  {
    var nx, ny := |cx| - 1, |cy| - 1;
    frames := [];
    var frameIndex := 0;
    for yIndex := 0 to ny
      invariant frameIndex == |frames| == yIndex * nx
      invariant frames <= GridSlices(cx, cy)
    {
      frames, frameIndex := SliceRow(cx, cy, yIndex, frames, frameIndex);
    }
    assert frames == GridSlices(cx, cy)[..nx * ny];
  }

  /** The inner loop of the grid branch: the cells of row `yIndex`, left to right. */
  method SliceRow(cx: seq<real>, cy: seq<real>, yIndex: nat, frames: seq<Slice>, frameIndex: nat)
    returns (frames': seq<Slice>, frameIndex': nat)
    requires |cx| >= 2 && yIndex < |cy| - 1
    requires frameIndex == |frames| == yIndex * (|cx| - 1)
    requires frames <= GridSlices(cx, cy)
    ensures frameIndex' == |frames'| == (yIndex + 1) * (|cx| - 1)
    ensures frames' <= GridSlices(cx, cy)
  {
    var nx, ny := |cx| - 1, |cy| - 1;
    frames', frameIndex' := frames, frameIndex;
    for xIndex := 0 to nx
      invariant frameIndex' == |frames'| == yIndex * nx + xIndex
      invariant frames' <= GridSlices(cx, cy)
    {
      var startX, endX := cx[xIndex], cx[xIndex + 1];
      var startY, endY := cy[yIndex], cy[yIndex + 1];
      var cell := Slice(frameIndex' + 1, SliceName(frameIndex' + 1), Region(startX, startY, endX - startX, endY - startY));
      CellAt(cx, cy, yIndex, xIndex);
      Seqs.PrefixExtend(GridSlices(cx, cy), frames', cell);
      frames' := frames' + [cell];
      frameIndex' := frameIndex' + 1;
    }
  }

  lemma CellIndexBound(row: nat, col: nat, nx: nat, ny: nat)
    requires row < ny && col < nx
    ensures row * nx + col < nx * ny
  {
    var gap: nat := ny - row - 1;
    assert ny * nx == (row + 1) * nx + gap * nx;
    assert (row + 1) * nx == row * nx + nx;
  }

  /** The loop of the horizontal branch. */
  method SliceHorizontal(cx: seq<real>, originalHeight: real) returns (frames: seq<Slice>)
    requires |cx| >= 2
    ensures frames == HorizontalStrips(cx, originalHeight)
  {
    frames := [];
    for i := 0 to |cx| - 1
      invariant frames == HorizontalStrips(cx, originalHeight)[..i]
    {
      frames := frames + [Slice(i + 1, SliceName(i + 1), Region(cx[i], 0.0, cx[i + 1] - cx[i], originalHeight))];
    }
  }

  /** The loop of the vertical (fall-through) branch. */
  method SliceVertical(cy: seq<real>, originalWidth: real) returns (frames: seq<Slice>)
    requires |cy| >= 2
    ensures frames == VerticalStrips(cy, originalWidth)
  {
    frames := [];
    for i := 0 to |cy| - 1
      invariant frames == VerticalStrips(cy, originalWidth)[..i]
    {
      frames := frames + [Slice(i + 1, SliceName(i + 1), Region(0.0, cy[i], originalWidth, cy[i + 1] - cy[i]))];
    }
  }

  /**
   * `originalWidth / imageSize.width` (and the same for heights). Until the
   * preview's `onload` has run the preview size is still 0 and no lines
   * have been seeded, so the quotient (Infinity or NaN in JavaScript) is
   * never applied to a line; it is 0 here.
   */
  function AxisScale(dim: real, display: real): real {
    if display > 0.0 then dim / display else 0.0
  }

  /**
   * What a split needs of the preview on each axis: a positive size, or no
   * lines to scale (the preview has not loaded yet, so none were seeded).
   */
  predicate PreviewReady(display: (real, real), x: seq<real>, y: seq<real>) {
    (display.0 > 0.0 || x == []) && (display.1 > 0.0 || y == [])
  }

  /** The slices the split produces for the given image size, preview size and lines. */
  function Split(orientation: Orientation, image: ImageSize, display: (real, real), x: seq<real>, y: seq<real>): seq<Slice>
    requires PreviewReady(display, x, y)
  {
    var w, h := image.width as real, image.height as real;
    var cx, cy := Cuts(x, AxisScale(w, display.0), w), Cuts(y, AxisScale(h, display.1), h);
    match orientation
    case Grid => GridSlices(cx, cy)
    case Horizontal => HorizontalStrips(cx, h)
    case Vertical => VerticalStrips(cy, w)
  }

  /**
   * `handleSplitImage`. `image` is the decoded image (`None` when loading
   * fails); `hasCanvas` and `hasContext` say whether the hidden canvas and its
   * 2D context are available; `display` is the fitted preview size.
   */
  method SplitImage(
    orientation: Orientation, imageUrl: string, image: Option<ImageSize>,
    hasCanvas: bool, hasContext: bool, display: (real, real), x: seq<real>, y: seq<real>)
    returns (r: Result<seq<Slice>>)
    requires PreviewReady(display, x, y)
    ensures imageUrl == "" ==> r == Err("Error processing image: Please provide an image URL or upload an image")
    ensures imageUrl != "" && image.None? ==>
      r == Err("Failed to load image. Make sure the URL is accessible or try uploading a file.")
    ensures imageUrl != "" && image.Some? && !hasCanvas ==> r == Err("Canvas not available")
    ensures imageUrl != "" && image.Some? && hasCanvas && !hasContext ==> r == Err("Canvas context not available")
    ensures imageUrl != "" && image.Some? && hasCanvas && hasContext ==>
      r == Ok(Split(orientation, image.value, display, x, y))
  {
    if imageUrl == "" {
      return Err("Error processing image: Please provide an image URL or upload an image");
    }
    if image.None? {
      return Err("Failed to load image. Make sure the URL is accessible or try uploading a file.");
    }
    if !hasCanvas {
      return Err("Canvas not available");
    }
    if !hasContext {
      return Err("Canvas context not available");
    }
    var originalWidth, originalHeight := image.value.width as real, image.value.height as real;
    var scaleX := AxisScale(originalWidth, display.0);
    var scaleY := AxisScale(originalHeight, display.1);
    var allXCuts := Cuts(x, scaleX, originalWidth);
    var allYCuts := Cuts(y, scaleY, originalHeight);
    var frames;
    if orientation == Grid {
      frames := SliceGrid(allXCuts, allYCuts);
    } else if orientation == Horizontal {
      frames := SliceHorizontal(allXCuts, originalHeight);
    } else {
      frames := SliceVertical(allYCuts, originalWidth);
    }
    r := Ok(frames);
  }

  // ---------------------------------------------------------------------------
  // What the split guarantees

  /**
   * Grid mode emits one frame per cell, row by row: the cell in row `row`
   * and column `col` is frame `row * (|x| + 1) + col`, numbered from 1 and
   * copied from that cell of the original image.
   */
  lemma GridSplitShape(image: ImageSize, display: (real, real), x: seq<real>, y: seq<real>, row: nat, col: nat)
    requires PreviewReady(display, x, y)
    requires row <= |y| && col <= |x|
    ensures var s := Split(Grid, image, display, x, y);
      var cx := Cuts(x, AxisScale(image.width as real, display.0), image.width as real);
      var cy := Cuts(y, AxisScale(image.height as real, display.1), image.height as real);
      var k := row * (|x| + 1) + col;
      |s| == (|x| + 1) * (|y| + 1)
      && k < |s| && s[k].id == k + 1 && s[k].filename == "frame_" + Decimal(k + 1) + ".png"
      && s[k].region == Region(cx[col], cy[row], cx[col + 1] - cx[col], cy[row + 1] - cy[row])
  {
    var w, h := image.width as real, image.height as real;
    var cx, cy := Cuts(x, AxisScale(w, display.0), w), Cuts(y, AxisScale(h, display.1), h);
    var s := GridSlices(cx, cy);
    assert Split(Grid, image, display, x, y) == s;
    var k := row * (|x| + 1) + col;
    CellIndexBound(row, col, |x| + 1, |y| + 1);
    RowMajor(row, col, |x| + 1);
    assert s[k] == GridCell(cx, cy, k);
  }

  /** Sum of the widths of some regions. */
  function TotalWidth(rs: seq<Slice>): real {
    if rs == [] then 0.0 else TotalWidth(rs[..|rs| - 1]) + rs[|rs| - 1].region.width
  }

  /** Sum of the heights of some regions. */
  function TotalHeight(rs: seq<Slice>): real {
    if rs == [] then 0.0 else TotalHeight(rs[..|rs| - 1]) + rs[|rs| - 1].region.height
  }

  lemma {:induction false} StripWidthsTelescope(cx: seq<real>, height: real, k: nat)
    requires |cx| >= 2 && k <= |cx| - 1
    ensures TotalWidth(HorizontalStrips(cx, height)[..k]) == cx[k] - cx[0]
  {
    if k > 0 {
      var s := HorizontalStrips(cx, height);
      assert s[..k][..k - 1] == s[..k - 1];
      StripWidthsTelescope(cx, height, k - 1);
    }
  }

  lemma {:induction false} StripHeightsTelescope(cy: seq<real>, width: real, k: nat)
    requires |cy| >= 2 && k <= |cy| - 1
    ensures TotalHeight(VerticalStrips(cy, width)[..k]) == cy[k] - cy[0]
  {
    if k > 0 {
      var s := VerticalStrips(cy, width);
      assert s[..k][..k - 1] == s[..k - 1];
      StripHeightsTelescope(cy, width, k - 1);
    }
  }

  /**
   * Horizontal mode: |x|+1 full-height strips, each starting where the
   * previous one ends, from 0 to the image width, whose widths add up to the
   * image width.
   */
  lemma HorizontalStripsTile(image: ImageSize, display: (real, real), x: seq<real>, y: seq<real>)
    requires PreviewReady(display, x, y)
    ensures var s := Split(Horizontal, image, display, x, y);
      |s| == |x| + 1
      && s[0].region.x == 0.0
      && s[|s| - 1].region.x + s[|s| - 1].region.width == image.width as real
      && (forall i :: 0 <= i < |s| - 1 ==> s[i].region.x + s[i].region.width == s[i + 1].region.x)
      && (forall i :: 0 <= i < |s| ==> s[i].region.y == 0.0 && s[i].region.height == image.height as real)
      && TotalWidth(s) == image.width as real
  {
    var w := image.width as real;
    var cx := Cuts(x, AxisScale(w, display.0), w);
    var s := HorizontalStrips(cx, image.height as real);
    StripWidthsTelescope(cx, image.height as real, |cx| - 1);
    assert s[..|cx| - 1] == s;
  }

  /**
   * Vertical mode: |y|+1 full-width strips, each starting where the previous
   * one ends, from 0 to the image height, whose heights add up to the image
   * height.
   */
  lemma VerticalStripsTile(image: ImageSize, display: (real, real), x: seq<real>, y: seq<real>)
    requires PreviewReady(display, x, y)
    ensures var s := Split(Vertical, image, display, x, y);
      |s| == |y| + 1
      && s[0].region.y == 0.0
      && s[|s| - 1].region.y + s[|s| - 1].region.height == image.height as real
      && (forall i :: 0 <= i < |s| - 1 ==> s[i].region.y + s[i].region.height == s[i + 1].region.y)
      && (forall i :: 0 <= i < |s| ==> s[i].region.x == 0.0 && s[i].region.width == image.width as real)
      && TotalHeight(s) == image.height as real
  {
    var h := image.height as real;
    var cy := Cuts(y, AxisScale(h, display.1), h);
    var s := VerticalStrips(cy, image.width as real);
    StripHeightsTelescope(cy, image.width as real, |cy| - 1);
    assert s[..|cy| - 1] == s;
  }

  /**
   * A split made before the preview has loaded (no lines yet, whatever the
   * preview size) gives one frame covering the whole image, in every mode.
   */
  lemma SplitBeforePreviewLoads(orientation: Orientation, image: ImageSize, display: (real, real))
    ensures PreviewReady(display, [], [])
    ensures Split(orientation, image, display, [], [])
      == [Slice(1, SliceName(1), Region(0.0, 0.0, image.width as real, image.height as real))]
  {
    var w, h := image.width as real, image.height as real;
    var cx, cy := Cuts([], AxisScale(w, display.0), w), Cuts([], AxisScale(h, display.1), h);
    assert cx == [0.0, w] && cy == [0.0, h];
    if orientation == Grid {
      assert GridSlices(cx, cy)[0] == GridCell(cx, cy, 0);
    }
  }
}
