/** The sheet the program actually draws: the fixed catalogue on an A4 page. */
module Sheet {
  import opened Catalogue
  import opened Layout
  import opened Render

  /** A4 at 300 dpi is 2481 x 3507 pixels; 106 entries in 4 columns need 27 rows;
      cells are 580.25 x 3347/27 pixels and the barcode is asked for 464 x 47 pixels.
      The first cell's corner is the page's top-left margin corner. */
  lemma CatalogueLayout()
    ensures A4 == Page(2481, 3507, 80.0) && Fits(A4)
    ensures |VimOps| == 106
    ensures var g := SheetGrid(A4, |VimOps|);
      g.cols == 4 && g.rows == 27 &&
      g.cellWidth == 580.25 && g.cellHeight == 3347.0 / 27.0 &&
      BarcodeTarget(g) == (464, 47) &&
      CellAt(g, 0) == Rect(80.0, 80.0, 580.25, 3347.0 / 27.0)
  {
    var w, h := A4WidthInches * Dpi, A4HeightInches * Dpi;
    assert w == 2481.0 && h == 3507.0;
    var g := SheetGrid(A4, |VimOps|);
    assert g.rows == 27;
    assert g.cellWidth * BarcodeWidthRatio == 464.2;
    assert g.cellHeight * BarcodeHeightRatio == 1271.86 / 27.0;
    assert 47.0 <= 1271.86 / 27.0 < 48.0;
  }

  /** For every catalogue entry: its cell lies inside the margins, a barcode of
      the requested size drawn at its truncated position sits inside the cell,
      and barcode, label and description are anchored one below the other inside it. */
  lemma CatalogueCellFits(i: nat)
    requires i < |VimOps|
    ensures var g := SheetGrid(A4, |VimOps|);
      var c := CellAt(g, i);
      var p := Place(c, BarcodeTarget(g).0, BarcodeTarget(g).1);
      Margin <= c.x && c.x + c.w <= 2401.0 && Margin <= c.y && c.y + c.h <= 3427.0 &&
      c.x <= Trunc(p.imageX) as real && Trunc(p.imageX) as real + BarcodeTarget(g).0 as real <= c.x + c.w &&
      c.y < p.imageY && p.imageY + BarcodeTarget(g).1 as real < p.labelY < p.descY < c.y + c.h
  {
    CatalogueLayout();
    var g := SheetGrid(A4, |VimOps|);
    var c := CellAt(g, i);
    CellInsideMargins(A4, |VimOps|, i);
    DrawnBarcodeInsideCell(g, c, BarcodeTarget(g).1);
    StackOrder(c, BarcodeTarget(g).0, BarcodeTarget(g).1);
    DescriptionStartsInCell(g, c, BarcodeTarget(g).0);
  }

  /** Whatever the encoder and scaler do, drawing the catalogue strokes one
      border per entry, in catalogue order. */
  lemma CatalogueBordersInOrder(codec: Codec, i: nat)
    requires i < |VimOps|
    ensures |Borders(SheetDraws(codec, VimOps))| == |VimOps|
    ensures Borders(SheetDraws(codec, VimOps))[i] == CellAt(SheetGrid(A4, |VimOps|), i)
  {
    BordersInOrder(SheetGrid(A4, |VimOps|), codec, VimOps, 0, |VimOps|);
  }
}
