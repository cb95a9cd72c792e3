/** Page and grid geometry of the barcode sheet: exact real arithmetic in place
    of float64, with Go's integer conversions written out. */
module Layout {

  /** Go's `int(f)` on a float64: truncation toward zero. */
  function Trunc(r: real): (t: int)
    ensures 0.0 <= r ==> t as real <= r < t as real + 1.0
    ensures r < 0.0 ==> t as real - 1.0 < r <= t as real
  {
    if r >= 0.0 then r.Floor else -((-r).Floor)
  }

  /** `math.Ceil`: the least integer not below `r`. */
  function Ceil(r: real): (c: int)
    ensures c as real - 1.0 < r <= c as real
  {
    -((-r).Floor)
  }

  // Page constants: A4 at 300 dpi, an 80 pixel margin and four columns.
  const Dpi: real := 300.0
  const A4WidthInches: real := 8.27
  const A4HeightInches: real := 11.69
  const Margin: real := 80.0
  const Cols: int := 4

  // Cell layout constants.
  const BarcodeWidthRatio: real := 0.80
  const BarcodeHeightRatio: real := 0.38
  const BarcodeTopPad: real := 6.0
  const LabelGap: real := 8.0
  const DescGap: real := 12.0
  const DescInset: real := 6.0

  /** A page of `width` x `height` pixels with the same margin on all four sides. */
  datatype Page = Page(width: int, height: int, margin: real)

  const A4: Page := Page(Trunc(A4WidthInches * Dpi), Trunc(A4HeightInches * Dpi), Margin)

  /** The margins leave a non-negative drawing area. */
  predicate Fits(page: Page) {
    2.0 * page.margin <= page.width as real && 2.0 * page.margin <= page.height as real
  }

  /** An axis-aligned rectangle: top-left corner and size. */
  datatype Rect = Rect(x: real, y: real, w: real, h: real)

  /** The grid: the interior's top-left corner, the column and row counts and the cell size. */
  datatype Grid = Grid(left: real, top: real, cols: int, rows: int, cellWidth: real, cellHeight: real)

  /** `rows = ceil(n / cols)`: the fewest rows of `cols` cells that hold `n` entries. */
  function RowCount(n: nat, cols: int): (rows: int)
    requires cols > 0
    ensures rows * cols >= n
    ensures (rows - 1) * cols < n
  {
    var q := n as real / cols as real;
    var rows := Ceil(q);
    CeilDivBounds(n, cols, q, rows);
    rows
  }

  lemma CeilDivBounds(n: nat, cols: int, q: real, rows: int)
    requires cols > 0 && q == n as real / cols as real
    requires rows as real - 1.0 < q <= rows as real
    ensures rows * cols >= n && (rows - 1) * cols < n
  {
    var c := cols as real;
    assert q * c == n as real;
    ScaledAtMost(q, rows, cols);
    ScaledBelow(rows - 1, q, cols);
  }

  lemma ScaledAtMost(q: real, k: int, cols: int)
    requires cols > 0 && q <= k as real
    ensures q * cols as real <= (k * cols) as real
  {
    MulMonotone(q, k as real, cols as real);
    CastProduct(k, cols);
  }

  lemma ScaledBelow(k: int, q: real, cols: int)
    requires cols > 0 && k as real < q
    ensures (k * cols) as real < q * cols as real
  {
    MulStrictMonotone(k as real, q, cols as real);
    CastProduct(k, cols);
  }

  lemma CastProduct(a: int, b: int)
    ensures (a * b) as real == a as real * b as real
  {
  }

  lemma MulMonotone(a: real, b: real, c: real)
    requires a <= b && 0.0 <= c
    ensures a * c <= b * c
  {
  }

  lemma MulStrictMonotone(a: real, b: real, c: real)
    requires a < b && 0.0 < c
    ensures a * c < b * c
  {
  }

  /** Along one axis, the slot at index `k2` starts no earlier than the slot at `k1 < k2` ends. */
  lemma Gap(base: real, k1: int, k2: int, w: real, x1: real, x2: real)
    requires k1 < k2 && 0.0 <= w
    requires x1 == base + k1 as real * w && x2 == base + k2 as real * w
    ensures x1 + w <= x2
  {
    MulMonotone(k1 as real + 1.0, k2 as real, w);
    assert (k1 as real + 1.0) * w == k1 as real * w + w;
  }

  /** The row count is the usual integer form of the ceiling. */
  lemma RowCountIsIntCeiling(n: nat, cols: int)
    requires cols > 0
    ensures RowCount(n, cols) == (n + cols - 1) / cols
  {
    var r := RowCount(n, cols);
    var d := (n + cols - 1) / cols;
    var m := (n + cols - 1) % cols;
    assert n + cols - 1 == d * cols + m && 0 <= m < cols;
    if r < d {
      assert r + 1 <= d;
      MulIntMonotone(r + 1, d, cols);
      assert false;
    } else if r > d {
      assert d + 1 <= r;
      MulIntMonotone(d + 1, r, cols);
      assert false;
    }
  }

  lemma MulIntMonotone(a: int, b: int, c: int)
    requires a <= b && 0 <= c
    ensures a * c <= b * c
  {
  }

  /** The grid the sheet uses for `n` entries (the geometry computed before the loop). */
  function SheetGrid(page: Page, n: nat): (g: Grid)
    requires n > 0
    ensures g.cols == Cols && g.rows > 0
    ensures g.cols * g.rows >= n && (g.rows - 1) * g.cols < n
  {
    var rows := RowCount(n, Cols);
    var top := page.margin;
    var bottom := page.height as real - page.margin;
    var left := page.margin;
    var right := page.width as real - page.margin;
    Grid(left, top, Cols, rows, (right - left) / Cols as real, (bottom - top) / rows as real)
  }

  /** The column of entry `i` (Go's `%` on non-negative operands). */
  function ColOf(i: nat, cols: int): (col: int)
    requires cols > 0
    ensures 0 <= col < cols
  {
    i % cols
  }

  /** The row of entry `i` (Go's `/` on non-negative operands). */
  function RowOf(i: nat, cols: int): (row: int)
    requires cols > 0
    ensures 0 <= row
  {
    i / cols
  }

  /** Every entry gets a slot inside the grid, in row-major order. */
  lemma SlotInGrid(g: Grid, n: nat, i: nat)
    requires g.cols > 0 && g.cols * g.rows >= n && i < n
    ensures 0 <= ColOf(i, g.cols) < g.cols
    ensures 0 <= RowOf(i, g.cols) < g.rows
    ensures i == RowOf(i, g.cols) * g.cols + ColOf(i, g.cols)
  {
    var r := RowOf(i, g.cols);
    if r >= g.rows {
      MulIntMonotone(g.rows, r, g.cols);
      assert false;
    }
  }

  /** Distinct entries get distinct slots. */
  lemma SlotsDistinct(cols: int, i: nat, j: nat)
    requires cols > 0 && i != j
    ensures RowOf(i, cols) != RowOf(j, cols) || ColOf(i, cols) != ColOf(j, cols)
  {
  }

  /** The bounds of the cell of entry `i`. */
  function CellAt(g: Grid, i: nat): (c: Rect)
    requires g.cols > 0
    ensures c.w == g.cellWidth && c.h == g.cellHeight
  {
    Rect(g.left + ColOf(i, g.cols) as real * g.cellWidth,
         g.top + RowOf(i, g.cols) as real * g.cellHeight,
         g.cellWidth, g.cellHeight)
  }

  /** Along one axis, slot `k` of `count` slots of size `w` lies within `[base, base + span]`. */
  lemma SlotWithin(base: real, k: int, count: int, w: real, span: real, x: real)
    requires 0 <= k < count && 0.0 <= w && w * count as real == span
    requires x == base + k as real * w
    ensures base <= x && x + w <= base + span
  {
    MulMonotone(0.0, k as real, w);
    MulMonotone(k as real + 1.0, count as real, w);
    assert (k as real + 1.0) * w == k as real * w + w;
  }

  /** Every cell lies inside the page's margins. */
  lemma {:induction false} CellInsideMargins(page: Page, n: nat, i: nat)
    requires n > 0 && i < n && Fits(page)
    ensures var c := CellAt(SheetGrid(page, n), i);
      page.margin <= c.x && c.x + c.w <= page.width as real - page.margin &&
      page.margin <= c.y && c.y + c.h <= page.height as real - page.margin
  {
    var g := SheetGrid(page, n);
    var c := CellAt(g, i);
    SlotInGrid(g, n, i);
    SlotWithin(g.left, ColOf(i, g.cols), g.cols, g.cellWidth, page.width as real - 2.0 * page.margin, c.x);
    SlotWithin(g.top, RowOf(i, g.cols), g.rows, g.cellHeight, page.height as real - 2.0 * page.margin, c.y);
  }

  /** The interiors of two different cells do not overlap. */
  lemma {:induction false} CellsDisjoint(g: Grid, i: nat, j: nat)
    requires g.cols > 0 && 0.0 <= g.cellWidth && 0.0 <= g.cellHeight && i != j
    ensures var a, b := CellAt(g, i), CellAt(g, j);
      a.x + a.w <= b.x || b.x + b.w <= a.x || a.y + a.h <= b.y || b.y + b.h <= a.y
  {
    var ci, cj := ColOf(i, g.cols), ColOf(j, g.cols);
    var ri, rj := RowOf(i, g.cols), RowOf(j, g.cols);
    SlotsDistinct(g.cols, i, j);
    var a, b := CellAt(g, i), CellAt(g, j);
    if ci < cj {
      Gap(g.left, ci, cj, g.cellWidth, a.x, b.x);
    } else if cj < ci {
      Gap(g.left, cj, ci, g.cellWidth, b.x, a.x);
    } else if ri < rj {
      Gap(g.top, ri, rj, g.cellHeight, a.y, b.y);
    } else {
      Gap(g.top, rj, ri, g.cellHeight, b.y, a.y);
    }
  }

  /** Horizontally adjacent cells abut: the next cell in a row starts where this one ends. */
  lemma CellsAbutInRow(g: Grid, i: nat)
    requires g.cols > 0 && ColOf(i, g.cols) + 1 < g.cols
    ensures CellAt(g, i + 1) == CellAt(g, i).(x := CellAt(g, i).x + g.cellWidth)
  {
    var cols := g.cols;
    assert (i + 1) / cols == i / cols && (i + 1) % cols == i % cols + 1 by {
      assert i + 1 == (i / cols) * cols + (i % cols + 1);
      DivModUnique(i + 1, cols, i / cols, i % cols + 1);
    }
    assert (i % cols + 1) as real * g.cellWidth == (i % cols) as real * g.cellWidth + g.cellWidth;
    var a, b := CellAt(g, i), CellAt(g, i + 1);
    var row := RowOf(i, cols);
    assert RowOf(i + 1, cols) == row;
    assert b.y == g.top + row as real * g.cellHeight == a.y;
    assert b.x == g.left + (i % cols + 1) as real * g.cellWidth;
    assert b.x == a.x + g.cellWidth;
  }

  /** Vertically adjacent cells abut: the cell one row down starts where this one ends. */
  lemma CellsAbutInColumn(g: Grid, i: nat)
    requires g.cols > 0
    ensures CellAt(g, i + g.cols) == CellAt(g, i).(y := CellAt(g, i).y + g.cellHeight)
  {
    var cols := g.cols;
    assert (i + cols) / cols == i / cols + 1 && (i + cols) % cols == i % cols by {
      assert i + cols == (i / cols + 1) * cols + i % cols;
      DivModUnique(i + cols, cols, i / cols + 1, i % cols);
    }
    assert (i / cols + 1) as real * g.cellHeight == (i / cols) as real * g.cellHeight + g.cellHeight;
    var a, b := CellAt(g, i), CellAt(g, i + cols);
    assert b.y == g.top + (i / cols + 1) as real * g.cellHeight;
    var col := ColOf(i, cols);
    assert ColOf(i + cols, cols) == col;
    assert b.x == g.left + col as real * g.cellWidth == a.x;
    assert b.y == a.y + g.cellHeight;
  }

  lemma DivModUnique(a: int, b: int, q: int, r: int)
    requires b > 0 && a == q * b + r && 0 <= r < b
    ensures a / b == q && a % b == r
  {
    var q', r' := a / b, a % b;
    assert a == q' * b + r';
    if q' < q {
      MulIntMonotone(q' + 1, q, b);
      assert false;
    } else if q < q' {
      MulIntMonotone(q + 1, q', b);
      assert false;
    }
  }

  /** The pixel box the barcode is scaled to: 80% of the cell width by 38% of its height, truncated. */
  function BarcodeTarget(g: Grid): (target: (int, int))
    ensures 0.0 <= g.cellWidth ==>
      0 <= target.0 && target.0 as real <= BarcodeWidthRatio * g.cellWidth < target.0 as real + 1.0
    ensures 0.0 <= g.cellHeight ==>
      0 <= target.1 && target.1 as real <= BarcodeHeightRatio * g.cellHeight < target.1 as real + 1.0
  {
    (Trunc(g.cellWidth * BarcodeWidthRatio), Trunc(g.cellHeight * BarcodeHeightRatio))
  }

  /** Where the pieces of one cell go, given the bounds of the scaled barcode. */
  datatype Placement = Placement(
    centreX: real,     // cx: the horizontal centre of the cell
    imageX: real,      // bx: left edge of the barcode
    imageY: real,      // by: top edge of the barcode
    labelY: real,      // baseline anchor of the label
    descX: real,       // left edge of the wrapped description
    descY: real,       // top of the wrapped description
    descWidth: real)   // wrapping width of the description

  /** The barcode and the label are centred in the cell; the barcode is 6 pixels
      below the cell's top, the label 8 pixels below the barcode and the
      description 12 pixels below the label, inset 6 pixels on both sides. */
  function Place(cell: Rect, imageWidth: int, imageHeight: int): (p: Placement)
    ensures p.centreX - cell.x == (cell.x + cell.w) - p.centreX
    ensures p.imageX - cell.x == (cell.x + cell.w) - (p.imageX + imageWidth as real)
    ensures p.imageY - cell.y == BarcodeTopPad
    ensures p.labelY - (p.imageY + imageHeight as real) == LabelGap
    ensures p.descY - p.labelY == DescGap
    ensures p.descX - cell.x == (cell.x + cell.w) - (p.descX + p.descWidth) == DescInset
  {
    var cx := cell.x + cell.w / 2.0;
    var bx := cx - imageWidth as real / 2.0;
    var top := cell.y + BarcodeTopPad;
    var labelY := top + imageHeight as real + LabelGap;
    Placement(cx, bx, top, labelY, cell.x + DescInset, labelY + DescGap, cell.w - 2.0 * DescInset)
  }

  /** A barcode of the requested width keeps at least 10% of the cell width clear on each side. */
  lemma {:induction false} BarcodeInsideCell(g: Grid, cell: Rect, imageHeight: int)
    requires 0.0 <= g.cellWidth && 0.0 <= g.cellHeight && cell.w == g.cellWidth
    ensures var p := Place(cell, BarcodeTarget(g).0, imageHeight);
      cell.x + 0.1 * cell.w <= p.imageX &&
      p.imageX + BarcodeTarget(g).0 as real <= cell.x + 0.9 * cell.w
  {
    var tw := BarcodeTarget(g).0;
    assert tw as real <= 0.8 * cell.w;
  }

  /** Drawn at the truncated position, a barcode of the requested width still lies
      within the cell once the cell is at least 10 pixels wide. */
  lemma {:induction false} DrawnBarcodeInsideCell(g: Grid, cell: Rect, imageHeight: int)
    requires 10.0 <= g.cellWidth && 0.0 <= g.cellHeight && cell.w == g.cellWidth && 0.0 <= cell.x
    ensures var p := Place(cell, BarcodeTarget(g).0, imageHeight);
      cell.x <= Trunc(p.imageX) as real &&
      Trunc(p.imageX) as real + BarcodeTarget(g).0 as real <= cell.x + cell.w
  {
    BarcodeInsideCell(g, cell, imageHeight);
  }

  /** Barcode, label and description are stacked top to bottom; the description's
      wrapping box is inset by 6 pixels on each side of the cell. */
  lemma StackOrder(cell: Rect, imageWidth: int, imageHeight: int)
    requires 0 <= imageHeight
    ensures var p := Place(cell, imageWidth, imageHeight);
      cell.y < p.imageY &&
      p.imageY + imageHeight as real < p.labelY < p.descY &&
      p.descX - cell.x == (cell.x + cell.w) - (p.descX + p.descWidth) == DescInset
  {
  }

  /** With a barcode of the requested height, the description starts inside the
      cell once the cell is at least 42 pixels tall. */
  lemma {:induction false} DescriptionStartsInCell(g: Grid, cell: Rect, imageWidth: int)
    requires 0.0 <= g.cellWidth && 42.0 <= g.cellHeight && cell.h == g.cellHeight
    ensures Place(cell, imageWidth, BarcodeTarget(g).1).descY < cell.y + cell.h
  {
    var th := BarcodeTarget(g).1;
    assert th as real <= 0.38 * cell.h;
  }
}
