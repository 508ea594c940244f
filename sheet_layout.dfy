/**
 * Sprite-sheet layout arithmetic shared by both sheet exporters: frames are
 * laid out row by row in `columns` columns, each cell `frameWidth` by
 * `frameHeight`, with `padding` pixels between neighbouring cells. The plain
 * exporter is the case `padding == 0`.
 */
module SheetLayout {

  /** `Math.ceil(n / columns)` */
  function Rows(n: nat, columns: int): (r: nat)
    requires columns >= 1
    ensures (r - 1) * columns < n <= r * columns || (n == 0 && r == 0)
  {
    (n + columns - 1) / columns
  }

  function Min(a: int, b: int): int {
    if a <= b then a else b
  }

  /** `(frameWidth + padding) * Math.min(columns, n) - padding` */
  function CanvasWidth(frameWidth: nat, padding: int, columns: int, n: nat): int {
    (frameWidth + padding) * Min(columns, n) - padding
  }

  /** `(frameHeight + padding) * rows - padding` */
  function CanvasHeight(frameHeight: nat, padding: int, columns: int, n: nat): int
    requires columns >= 1
  {
    (frameHeight + padding) * Rows(n, columns) - padding
  }

  /** Left edge of frame i: `(i % columns) * (frameWidth + padding)` */
  function CellX(i: nat, frameWidth: nat, padding: int, columns: int): int
    requires columns >= 1
  {
    (i % columns) * (frameWidth + padding)
  }

  /** Top edge of frame i: `Math.floor(i / columns) * (frameHeight + padding)` */
  function CellY(i: nat, frameHeight: nat, padding: int, columns: int): int
    requires columns >= 1
  {
    (i / columns) * (frameHeight + padding)
  }

  lemma MulLeftMono(a: int, b: int, c: int)
    requires a >= 0 && b <= c
    ensures a * b <= a * c
  {
    assert a * c - a * b == a * (c - b);
  }

  /** Column i % columns and row i / columns identify frame i: row * columns + column == i. */
  lemma CellIndex(i: nat, columns: int)
    requires columns >= 1
    ensures 0 <= i % columns < columns && (i / columns) * columns + i % columns == i
  {
  }

  /** A cell at slot `k` of a strip of `m` slots ends inside the strip. */
  lemma SlotInsideStrip(k: int, m: int, size: nat, padding: int)
    requires padding >= 0 && 0 <= k < m
    ensures 0 <= k * (size + padding)
    ensures k * (size + padding) + size <= (size + padding) * m - padding
  {
    MulLeftMono(size + padding, 0, k);
    MulLeftMono(size + padding, k + 1, m);
    assert (size + padding) * (k + 1) == k * (size + padding) + size + padding;
  }

  /** The row of frame i is below the row count. */
  lemma RowInRange(i: nat, n: nat, columns: int)
    requires columns >= 1 && i < n
    ensures i / columns < Rows(n, columns)
  {
    var row, rows := i / columns, Rows(n, columns);
    CellIndex(i, columns);
    if rows <= row {
      MulLeftMono(columns, rows, row);
      assert false;
    }
  }

  /** With non-negative padding, every cell lies on the canvas. */
  lemma CellInsideCanvas(i: nat, n: nat, frameWidth: nat, frameHeight: nat, padding: int, columns: int)
    requires columns >= 1 && padding >= 0 && i < n
    ensures 0 <= CellX(i, frameWidth, padding, columns)
    ensures CellX(i, frameWidth, padding, columns) + frameWidth <= CanvasWidth(frameWidth, padding, columns, n)
    ensures 0 <= CellY(i, frameHeight, padding, columns)
    ensures CellY(i, frameHeight, padding, columns) + frameHeight <= CanvasHeight(frameHeight, padding, columns, n)
  {
    CellIndex(i, columns);
    SlotInsideStrip(i % columns, Min(columns, n), frameWidth, padding);
    RowInRange(i, n, columns);
    SlotInsideStrip(i / columns, Rows(n, columns), frameHeight, padding);
  }

  lemma SpacedApart(a: int, b: int, size: nat, padding: int)
    requires padding >= 0 && a < b
    ensures a * (size + padding) + size <= b * (size + padding)
  {
    MulLeftMono(size + padding, a + 1, b);
  }

  /** With non-negative padding, the cells of two different frames do not overlap. */
  lemma {:induction false} CellsDisjoint(i: nat, j: nat, frameWidth: nat, frameHeight: nat, padding: int, columns: int)
    requires columns >= 1 && padding >= 0 && i != j
    ensures CellX(i, frameWidth, padding, columns) + frameWidth <= CellX(j, frameWidth, padding, columns)
         || CellX(j, frameWidth, padding, columns) + frameWidth <= CellX(i, frameWidth, padding, columns)
         || CellY(i, frameHeight, padding, columns) + frameHeight <= CellY(j, frameHeight, padding, columns)
         || CellY(j, frameHeight, padding, columns) + frameHeight <= CellY(i, frameHeight, padding, columns)
  {
    CellIndex(i, columns);
    CellIndex(j, columns);
    if i % columns < j % columns {
      SpacedApart(i % columns, j % columns, frameWidth, padding);
    } else if j % columns < i % columns {
      SpacedApart(j % columns, i % columns, frameWidth, padding);
    } else if i / columns < j / columns {
      SpacedApart(i / columns, j / columns, frameHeight, padding);
    } else {
      assert i / columns != j / columns;
      SpacedApart(j / columns, i / columns, frameHeight, padding);
    }
  }

  /** Where one frame is drawn on the sheet. */
  datatype Placement = Placement(x: int, y: int)

  /** The draw position of every one of `n` frames, in index order. */
  function Placements(n: nat, frameWidth: nat, frameHeight: nat, padding: int, columns: int): (r: seq<Placement>)
    requires columns >= 1
    ensures |r| == n
  {
    seq(n, i requires 0 <= i < n => Placement(CellX(i, frameWidth, padding, columns), CellY(i, frameHeight, padding, columns)))
  }

  /** The `images.forEach((img, index) => ctx.drawImage(...))` loop, recording each draw position. */
  method DrawFrames(n: nat, frameWidth: nat, frameHeight: nat, padding: int, columns: int) returns (draws: seq<Placement>)
    requires columns >= 1
    ensures draws == Placements(n, frameWidth, frameHeight, padding, columns)
  {
    draws := [];
    for index := 0 to n
      invariant draws == Placements(index, frameWidth, frameHeight, padding, columns)
    {
      var row := index / columns;
      var col := index % columns;
      draws := draws + [Placement(col * (frameWidth + padding), row * (frameHeight + padding))];
    }
  }
}
